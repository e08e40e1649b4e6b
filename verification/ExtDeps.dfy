/**
 The order in which `buildsystems/ext-deps/bash/ext-deps` installs its targets. A pair `(a, b)` says that script `a`
 requires script `b`. `tsort` is a parameter: all that is asked of it is what POSIX says of the utility.
 */
module ExtDeps {
  import opened Prelude

  type Name = string
  type Pair = (Name, Name)

  // ---- sequences of names ----

  predicate NoDuplicates(s: seq<Name>) {
    forall i, j :: 0 <= i < j < |s| ==> s[i] != s[j]
  }

  /** Some `x` stands before some `y`. */
  predicate Before(s: seq<Name>, x: Name, y: Name) {
    exists i, j :: 0 <= i < j < |s| && s[i] == x && s[j] == y
  }

  lemma BeforeSnoc(s: seq<Name>, z: Name, x: Name, y: Name)
    ensures Before(s + [z], x, y) <==> Before(s, x, y) || (x in s && y == z)
  {
    var t := s + [z];
    if Before(s, x, y) {
      var i, j :| 0 <= i < j < |s| && s[i] == x && s[j] == y;
      assert t[i] == x && t[j] == y;
    } else if x in s && y == z {
      var i :| 0 <= i < |s| && s[i] == x;
      assert t[i] == x && t[|s|] == y;
    }
  }

  lemma NoDuplicatesIsBefore(s: seq<Name>)
    ensures NoDuplicates(s) <==> forall x :: !Before(s, x, x)
  {
    if !NoDuplicates(s) {
      var i, j :| 0 <= i < j < |s| && s[i] == s[j];
      assert Before(s, s[i], s[i]);
    }
  }

  lemma {:induction false} SameNames(s: seq<Name>, t: seq<Name>)
    requires NoDuplicates(s) && NoDuplicates(t) && forall x :: x in s <==> x in t
    ensures multiset(s) == multiset(t)
  {
    forall x ensures multiset(s)[x] == multiset(t)[x] {
      CountIsOne(s, x);
      CountIsOne(t, x);
    }
  }

  lemma {:induction false} CountIsOne(s: seq<Name>, x: Name)
    requires NoDuplicates(s)
    ensures multiset(s)[x] == if x in s then 1 else 0
  {
    if s != [] {
      var n := |s| - 1;
      CountIsOne(s[..n], x);
      assert s == s[..n] + [s[n]];
    }
  }

  // ---- tac ----

  function Reverse(s: seq<Name>): (r: seq<Name>)
    ensures |r| == |s| && forall i :: 0 <= i < |s| ==> r[i] == s[|s| - 1 - i]
  {
    seq(|s|, i requires 0 <= i < |s| => s[|s| - 1 - i])
  }

  lemma ReverseMeaning(s: seq<Name>, x: Name, y: Name)
    ensures Before(Reverse(s), x, y) <==> Before(s, y, x)
    ensures x in Reverse(s) <==> x in s
  {
    var r := Reverse(s);
    assert forall i :: 0 <= i < |s| ==> s[i] == r[|s| - 1 - i];
    if Before(r, x, y) {
      var i, j :| 0 <= i < j < |r| && r[i] == x && r[j] == y;
      assert s[|s| - 1 - j] == y && s[|s| - 1 - i] == x;
    }
    if Before(s, y, x) {
      var i, j :| 0 <= i < j < |s| && s[i] == y && s[j] == x;
      assert r[|s| - 1 - j] == x && r[|s| - 1 - i] == y;
    }
  }

  // ---- tsort ----

  /** `a` has to come before `b`; a pair of identical names only says that the name is there. */
  predicate Edge(pairs: seq<Pair>, a: Name, b: Name) {
    (a, b) in pairs && a != b
  }

  predicate IsItem(pairs: seq<Pair>, x: Name) {
    exists i :: 0 <= i < |pairs| && (pairs[i].0 == x || pairs[i].1 == x)
  }

  predicate Path(pairs: seq<Pair>, p: seq<Name>) {
    forall i :: 0 <= i < |p| - 1 ==> Edge(pairs, p[i], p[i + 1])
  }

  predicate IsCycle(pairs: seq<Pair>, p: seq<Name>) {
    |p| >= 2 && p[0] == p[|p| - 1] && Path(pairs, p)
  }

  ghost predicate Cyclic(pairs: seq<Pair>) {
    exists p :: IsCycle(pairs, p)
  }

  /** A total order of the items that the pairs agree with. */
  ghost predicate Sorts(pairs: seq<Pair>, order: seq<Name>) {
    && NoDuplicates(order)
    && (forall x :: x in order <==> IsItem(pairs, x))
    && forall a, b :: Edge(pairs, a, b) ==> Before(order, a, b)
  }

  ghost predicate SortsOrFails(pairs: seq<Pair>, result: Option<seq<Name>>) {
    match result
    case Some(order) => Sorts(pairs, order)
    case None => Cyclic(pairs)
  }

  ghost predicate Tsort(tsort: seq<Pair> -> Option<seq<Name>>) {
    forall pairs :: SortsOrFails(pairs, tsort(pairs))
  }

  lemma BeforeIsTransitive(s: seq<Name>, x: Name, y: Name, z: Name)
    requires NoDuplicates(s) && Before(s, x, y) && Before(s, y, z)
    ensures Before(s, x, z)
  {
    var i, j :| 0 <= i < j < |s| && s[i] == x && s[j] == y;
    var k, l :| 0 <= k < l < |s| && s[k] == y && s[l] == z;
    assert j == k;
  }

  lemma {:induction false} PathIsOrdered(pairs: seq<Pair>, order: seq<Name>, p: seq<Name>)
    requires Sorts(pairs, order) && Path(pairs, p) && |p| >= 2
    ensures Before(order, p[0], p[|p| - 1])
  {
    var n := |p| - 1;
    assert Edge(pairs, p[n - 1], p[n]);
    if n > 1 {
      PathIsOrdered(pairs, order, p[..n]);
      BeforeIsTransitive(order, p[0], p[n - 1], p[n]);
    }
  }

  lemma SortedIsAcyclic(pairs: seq<Pair>, order: seq<Name>)
    requires Sorts(pairs, order)
    ensures !Cyclic(pairs)
  {
    if Cyclic(pairs) {
      var p :| IsCycle(pairs, p);
      PathIsOrdered(pairs, order, p);
      NoDuplicatesIsBefore(order);
    }
  }

  lemma {:induction false} NoMoreThan(p: seq<Name>, rest: set<Name>)
    requires NoDuplicates(p) && forall i :: 0 <= i < |p| ==> p[i] in rest
    ensures |p| <= |rest|
  {
    if p != [] {
      var n := |p| - 1;
      NoMoreThan(p[..n], rest - {p[n]});
    }
  }

  ghost predicate First(pairs: seq<Pair>, rest: set<Name>, x: Name) {
    x in rest && forall y :: y in rest ==> !Edge(pairs, y, x)
  }

  /** Walking against the edges from the end of a path stops at a name that nothing left requires. */
  lemma FindFirst(pairs: seq<Pair>, rest: set<Name>, p: seq<Name>) returns (x: Name)
    requires !Cyclic(pairs) && p != [] && Path(pairs, p) && NoDuplicates(p)
    requires forall i :: 0 <= i < |p| ==> p[i] in rest
    ensures First(pairs, rest, x)
    decreases |rest| - |p|
  {
    x := p[0];
    if !First(pairs, rest, x) {
      var y :| y in rest && Edge(pairs, y, x);
      var longer := [y] + p;
      assert Path(pairs, longer);
      if y in p {
        var k :| 0 <= k < |p| && p[k] == y;
        assert IsCycle(pairs, longer[..k + 2]);
        assert false;
      }
      NoMoreThan(longer, rest);
      x := FindFirst(pairs, rest, longer);
    }
  }

  /** An order of the names in `rest` alone. */
  ghost predicate SortsWithin(pairs: seq<Pair>, rest: set<Name>, order: seq<Name>) {
    && NoDuplicates(order)
    && (forall x :: x in order <==> x in rest)
    && forall a, b :: a in rest && b in rest && Edge(pairs, a, b) ==> Before(order, a, b)
  }

  lemma {:induction false} SortNames(pairs: seq<Pair>, rest: set<Name>) returns (order: seq<Name>)
    requires !Cyclic(pairs)
    ensures SortsWithin(pairs, rest, order)
    decreases |rest|
  {
    order := [];
    if rest != {} {
      var start :| start in rest;
      var x := FindFirst(pairs, rest, [start]);
      var tail := SortNames(pairs, rest - {x});
      order := [x] + tail;
      forall a, b | a in rest && b in rest && Edge(pairs, a, b) ensures Before(order, a, b) {
        PutFirst(x, tail, a, b);
      }
    }
  }

  lemma PutFirst(x: Name, tail: seq<Name>, a: Name, b: Name)
    requires Before(tail, a, b) || (a == x && b in tail)
    ensures Before([x] + tail, a, b)
  {
    var t := [x] + tail;
    if Before(tail, a, b) {
      var i, j :| 0 <= i < j < |tail| && tail[i] == a && tail[j] == b;
      assert t[i + 1] == a && t[j + 1] == b;
    } else {
      var j :| 0 <= j < |tail| && tail[j] == b;
      assert t[0] == a && t[j + 1] == b;
    }
  }

  ghost function Items(pairs: seq<Pair>): (r: set<Name>)
    ensures forall x :: x in r <==> IsItem(pairs, x)
  {
    (set i | 0 <= i < |pairs| :: pairs[i].0) + (set i | 0 <= i < |pairs| :: pairs[i].1)
  }

  /** There is an order exactly where no name requires itself through others. */
  lemma SortableIffAcyclic(pairs: seq<Pair>)
    ensures (exists order :: Sorts(pairs, order)) <==> !Cyclic(pairs)
  {
    if !Cyclic(pairs) {
      var order := SortNames(pairs, Items(pairs));
      EdgesAreItems(pairs);
      assert Sorts(pairs, order);
    } else if order :| Sorts(pairs, order) {
      SortedIsAcyclic(pairs, order);
    }
  }

  lemma EdgesAreItems(pairs: seq<Pair>)
    ensures forall a, b :: Edge(pairs, a, b) ==> IsItem(pairs, a) && IsItem(pairs, b)
  {
    forall a, b | Edge(pairs, a, b) ensures IsItem(pairs, a) && IsItem(pairs, b) {
      var i :| 0 <= i < |pairs| && pairs[i] == (a, b);
    }
  }

  /** What the contract leaves open is only which order is chosen; a cycle always fails. */
  lemma TsortFailsOnCycles(tsort: seq<Pair> -> Option<seq<Name>>, pairs: seq<Pair>)
    requires Tsort(tsort)
    ensures tsort(pairs) == None <==> Cyclic(pairs)
  {
    assert SortsOrFails(pairs, tsort(pairs));
    if tsort(pairs).Some? {
      SortedIsAcyclic(pairs, tsort(pairs).value);
    }
  }

  ghost function SomeOrder(pairs: seq<Pair>): (result: Option<seq<Name>>)
    ensures SortsOrFails(pairs, result)
  {
    SortableIffAcyclic(pairs);
    if Cyclic(pairs) then None else
    var order :| Sorts(pairs, order); Some(order)
  }

  /** Such a `tsort` exists. */
  lemma TsortExists()
    ensures exists tsort: seq<Pair> -> Option<seq<Name>> :: Tsort(tsort)
  {
    assert Tsort(SomeOrder);
  }

  // ---- lines ----

  /** An array handed over as a here-string: no elements still make one empty line. */
  function Lines(names: seq<Name>): (r: seq<Name>) {
    if names == [] then [""] else names
  }

  /** The lines whose name has not been seen yet. */
  function Uniq(lines: seq<Name>): seq<Name> {
    if lines == [] then [] else
      var n := |lines| - 1;
      Uniq(lines[..n]) + if lines[n] in lines[..n] then [] else [lines[n]]
  }

  /** `y` is first seen after `x`. */
  predicate SeenBefore(lines: seq<Name>, x: Name, y: Name) {
    y in lines && exists i :: 0 <= i < |lines| && lines[i] == x && y !in lines[..i + 1]
  }

  lemma SeenBeforeSnoc(s: seq<Name>, z: Name, x: Name, y: Name)
    ensures SeenBefore(s + [z], x, y) <==> SeenBefore(s, x, y) || (x in s && y !in s && y == z)
  {
    var t := s + [z];
    if SeenBefore(t, x, y) {
      var i :| 0 <= i < |t| && t[i] == x && y !in t[..i + 1];
      assert t[..|t|] == t;
      assert t[..i + 1] == s[..i + 1];
    }
    if x in s && y !in s && y == z {
      var i :| 0 <= i < |s| && s[i] == x;
      assert t[i] == x && t[..i + 1] == s[..i + 1];
    }
    if SeenBefore(s, x, y) {
      var i :| 0 <= i < |s| && s[i] == x && y !in s[..i + 1];
      assert t[i] == x && t[..i + 1] == s[..i + 1];
    }
  }

  /** One copy of every line stays, where it was first seen. */
  lemma {:induction false} UniqMeaning(lines: seq<Name>, x: Name, y: Name)
    ensures x in Uniq(lines) <==> x in lines
    ensures Before(Uniq(lines), x, y) <==> SeenBefore(lines, x, y)
  {
    if lines != [] {
      var n := |lines| - 1;
      var s, z := lines[..n], lines[n];
      assert lines == s + [z];
      UniqMeaning(s, x, y);
      UniqMeaning(s, y, x);
      SeenBeforeSnoc(s, z, x, y);
      BeforeSnoc(Uniq(s), z, x, y);
      assert Uniq(lines) == if z in s then Uniq(s) else Uniq(s) + [z];
    }
  }

  lemma UniqHasNoDuplicates(lines: seq<Name>)
    ensures NoDuplicates(Uniq(lines))
  {
    forall x ensures !Before(Uniq(lines), x, x) {
      UniqMeaning(lines, x, x);
    }
    NoDuplicatesIsBefore(Uniq(lines));
  }

  /** Names that are already told apart stay in front, as they are. */
  lemma {:induction false} UniqExtends(a: seq<Name>, b: seq<Name>)
    requires NoDuplicates(a)
    ensures a <= Uniq(a + b)
    decreases |b|, |a|
  {
    if b != [] {
      var n := |b| - 1;
      assert (a + b)[..|a| + n] == a + b[..n];
      UniqExtends(a, b[..n]);
    } else if a != [] {
      var n := |a| - 1;
      assert a + b == a && a[..n] + [] == a[..n];
      UniqExtends(a[..n], []);
      UniqSize(a[..n]);
    }
  }

  lemma {:induction false} UniqSize(lines: seq<Name>)
    ensures |Uniq(lines)| <= |lines|
  {
    if lines != [] {
      UniqSize(lines[..|lines| - 1]);
    }
  }

  /** The lines that equal one of the patterns. */
  function Kept(lines: seq<Name>, patterns: seq<Name>): seq<Name> {
    if lines == [] then [] else
      var n := |lines| - 1;
      Kept(lines[..n], patterns) + if lines[n] in patterns then [lines[n]] else []
  }

  lemma {:induction false} KeptMeaning(lines: seq<Name>, patterns: seq<Name>, x: Name, y: Name)
    ensures x in Kept(lines, patterns) <==> x in lines && x in patterns
    ensures Before(Kept(lines, patterns), x, y) <==> Before(lines, x, y) && x in patterns && y in patterns
  {
    if lines != [] {
      var n := |lines| - 1;
      var s, z := lines[..n], lines[n];
      assert lines == s + [z];
      KeptMeaning(s, patterns, x, y);
      BeforeSnoc(s, z, x, y);
      BeforeSnoc(Kept(s, patterns), z, x, y);
      assert Kept(lines, patterns) == if z in patterns then Kept(s, patterns) + [z] else Kept(s, patterns);
    }
  }

  // ---- the ordering part of the script ----

  /** The targets after `topological_order` and `array_extend_uniq`. */
  function Extended(order: seq<Name>, recipes: seq<Name>): seq<Name> {
    Uniq(Lines(Reverse(order)) + recipes)
  }

  /** The targets that are left after `array_filter_by`, where that is called. */
  function Chosen(order: seq<Name>, recipes: seq<Name>, args: seq<Name>, allTargets: bool): seq<Name> {
    if args != [] || !allTargets then Kept(Lines(Extended(order, recipes)), Lines(args)) else Extended(order, recipes)
  }

  datatype Exit = Ready | NoRecipes | DependencyLoop | NoSuchTarget(name: Name)

  ghost predicate Known(recipes: seq<Name>, pairs: seq<Pair>, args: seq<Name>) {
    (forall x :: IsItem(pairs, x) ==> x in recipes) && forall x :: x in args ==> x in recipes
  }

  predicate IsFirstMissing(names: seq<Name>, recipes: seq<Name>, x: Name) {
    x !in recipes && exists i :: 0 <= i < |names| && names[i] == x && forall j :: 0 <= j < i ==> names[j] in recipes
  }

  /** `recipes` holds the keys of the associative array, in the order in which the shell lists them. */
  class Installation {
    const recipes: seq<Name>
    var targets: seq<Name>  // ordered_targets

    constructor (recipes: seq<Name>)
      ensures this.recipes == recipes && targets == []
    {
      this.recipes := recipes;
      targets := [];
    }

    /** `assert_targets`: the first name that is no recipe. */
    method FindMissing(names: seq<Name>) returns (missing: Option<Name>)
      ensures missing == None <==> forall x :: x in names ==> x in recipes
      ensures missing.Some? ==> IsFirstMissing(names, recipes, missing.value)
    {
      missing := None;
      for i := 0 to |names|
        invariant forall j :: 0 <= j < i ==> names[j] in recipes
      {
        if names[i] !in recipes {
          return Some(names[i]);
        }
      }
    }

    /** `array_extend_uniq`. */
    method ExtendUniq(names: seq<Name>)
      modifies this
      ensures targets == Uniq(Lines(old(targets)) + names)
    {
      var lines := Lines(targets) + names;
      var seen: set<Name> := {};
      targets := [];
      for i := 0 to |lines|
        invariant targets == Uniq(lines[..i]) && forall x :: x in seen <==> x in lines[..i]
      {
        assert lines[..i + 1][..i] == lines[..i];
        if lines[i] !in seen {
          targets := targets + [lines[i]];
          seen := seen + {lines[i]};
        }
      }
      assert lines[..|lines|] == lines;
    }

    /** `array_filter_by`. */
    method FilterBy(names: seq<Name>)
      modifies this
      ensures targets == Kept(Lines(old(targets)), Lines(names))
    {
      var lines, patterns := Lines(targets), Lines(names);
      targets := [];
      for i := 0 to |lines|
        invariant targets == Kept(lines[..i], patterns)
      {
        assert lines[..i + 1][..i] == lines[..i];
        if lines[i] in patterns {
          targets := targets + [lines[i]];
        }
      }
      assert lines[..|lines|] == lines;
    }

    /** `topological_order` and the ordering part of `_main`. */
    method Plan(pairs: seq<Pair>, tsort: seq<Pair> -> Option<seq<Name>>, args: seq<Name>, allTargets: bool)
      returns (exit: Exit)
      requires Tsort(tsort)
      modifies this
      ensures exit == NoRecipes <==> recipes == []
      ensures recipes != [] ==> (exit == DependencyLoop <==> Cyclic(pairs))
      ensures exit == Ready <==> recipes != [] && !Cyclic(pairs) && Known(recipes, pairs, args)
      ensures exit.NoSuchTarget? ==>
                && tsort(pairs).Some? && Sorts(pairs, tsort(pairs).value)
                && if forall x :: IsItem(pairs, x) ==> x in recipes
                   then IsFirstMissing(args, recipes, exit.name)
                   else IsFirstMissing(Reverse(tsort(pairs).value), recipes, exit.name)
      ensures exit == Ready ==>
                && tsort(pairs).Some? && Sorts(pairs, tsort(pairs).value)
                && targets == Chosen(tsort(pairs).value, recipes, args, allTargets)
    {
      if recipes == [] {
        return NoRecipes;
      }
      TsortFailsOnCycles(tsort, pairs);
      var sorted := tsort(pairs);
      assert SortsOrFails(pairs, sorted);
      if sorted == None {
        return DependencyLoop;
      }
      targets := Reverse(sorted.value);
      ReversedItems(pairs, sorted.value);
      var missing := FindMissing(targets);
      if missing.Some? {
        return NoSuchTarget(missing.value);
      }
      ExtendUniq(recipes);
      missing := FindMissing(args);
      if missing.Some? {
        return NoSuchTarget(missing.value);
      }
      if args != [] || !allTargets {
        FilterBy(args);
      }
      return Ready;
    }
  }

  lemma ReversedItems(pairs: seq<Pair>, order: seq<Name>)
    requires Sorts(pairs, order)
    ensures forall x :: x in Reverse(order) <==> IsItem(pairs, x)
  {
    forall x ensures x in Reverse(order) <==> IsItem(pairs, x) {
      ReverseMeaning(order, x, x);
    }
  }

  // ---- what the order is for ----

  lemma ExtendedBefore(order: seq<Name>, recipes: seq<Name>, a: Name, b: Name)
    requires NoDuplicates(order) && Before(order, a, b)
    ensures Before(Extended(order, recipes), b, a)
  {
    var reversed := Reverse(order);
    var lines := Lines(reversed) + recipes;
    ReverseMeaning(order, b, a);
    var i, j :| 0 <= i < j < |reversed| && reversed[i] == b && reversed[j] == a;
    assert NoDuplicates(reversed);
    assert lines[i] == b && lines[j] == a && lines[..i + 1] == reversed[..i + 1];
    assert SeenBefore(lines, b, a);
    UniqMeaning(lines, b, a);
  }

  lemma ExtendedOrder(order: seq<Name>, recipes: seq<Name>, a: Name, b: Name)
    requires NoDuplicates(order) && Before(order, a, b)
    ensures var extended := Extended(order, recipes); Before(extended, b, a) && !Before(extended, a, b)
  {
    var extended := Extended(order, recipes);
    ExtendedBefore(order, recipes, a, b);
    UniqHasNoDuplicates(Lines(Reverse(order)) + recipes);
    NoDuplicatesIsBefore(extended);
    if Before(extended, a, b) {
      BeforeIsTransitive(extended, a, b, a);
    }
  }

  /**
   Of the chosen targets, what requires another one, directly or through others, comes after it, even where those
   in between are not chosen.
   */
  lemma PrerequisitesComeFirst(
    pairs: seq<Pair>, order: seq<Name>, recipes: seq<Name>, args: seq<Name>, allTargets: bool, p: seq<Name>)
    requires Sorts(pairs, order) && Path(pairs, p) && |p| >= 2
    ensures var chosen, a, b := Chosen(order, recipes, args, allTargets), p[0], p[|p| - 1];
            a in chosen && b in chosen ==> Before(chosen, b, a) && !Before(chosen, a, b)
  {
    var a, b := p[0], p[|p| - 1];
    PathIsOrdered(pairs, order, p);
    ExtendedOrder(order, recipes, a, b);
    ChosenKeepsOrder(order, recipes, args, allTargets, b, a);
    ChosenKeepsOrder(order, recipes, args, allTargets, a, b);
  }

  lemma ChosenKeepsOrder(
    order: seq<Name>, recipes: seq<Name>, args: seq<Name>, allTargets: bool, x: Name, y: Name)
    requires Extended(order, recipes) != []
    ensures var chosen := Chosen(order, recipes, args, allTargets);
            x in chosen && y in chosen ==> (Before(chosen, x, y) <==> Before(Extended(order, recipes), x, y))
  {
    KeptMeaning(Extended(order, recipes), Lines(args), x, y);
    KeptMeaning(Extended(order, recipes), Lines(args), y, x);
  }

  lemma NothingToSort(pairs: seq<Pair>, order: seq<Name>)
    requires Sorts(pairs, order)
    ensures Reverse(order) == [] <==> pairs == []
  {
    if pairs != [] {
      assert IsItem(pairs, pairs[0].0);
    }
    if order != [] {
      assert IsItem(pairs, order[0]);
    }
  }

  lemma ExtendedNames(pairs: seq<Pair>, order: seq<Name>, recipes: seq<Name>, x: Name)
    requires Sorts(pairs, order) && Known(recipes, pairs, [])
    ensures x in Extended(order, recipes) <==> x in recipes || (x == "" && pairs == [])
  {
    ReversedItems(pairs, order);
    UniqMeaning(Lines(Reverse(order)) + recipes, x, x);
    NothingToSort(pairs, order);
  }

  /** All targets, none named: every recipe once, where any script declares a dependency. */
  lemma AllRecipesOnce(pairs: seq<Pair>, order: seq<Name>, recipes: seq<Name>)
    requires Sorts(pairs, order) && Known(recipes, pairs, [])
    requires NoDuplicates(recipes) && "" !in recipes
    ensures multiset(Chosen(order, recipes, [], true)) ==
            multiset(recipes) + if pairs == [] then multiset{""} else multiset{}
    ensures pairs != [] ==> Reverse(order) <= Chosen(order, recipes, [], true)
  {
    var all := recipes + if pairs == [] then [""] else [];
    forall x ensures x in Extended(order, recipes) <==> x in all {
      ExtendedNames(pairs, order, recipes, x);
    }
    UniqHasNoDuplicates(Lines(Reverse(order)) + recipes);
    SameNames(Extended(order, recipes), all);
    NothingToSort(pairs, order);
    UniqExtends(Reverse(order), recipes);
  }

  /** Named targets: those and no others, each once, in the order that all targets would have. */
  lemma NamedRecipesInOrder(
    pairs: seq<Pair>, order: seq<Name>, recipes: seq<Name>, args: seq<Name>, allTargets: bool, x: Name, y: Name)
    requires Sorts(pairs, order) && Known(recipes, pairs, args) && "" !in recipes && args != []
    ensures NoDuplicates(Chosen(order, recipes, args, allTargets))
    ensures x in Chosen(order, recipes, args, allTargets) <==> x in args
    ensures Before(Chosen(order, recipes, args, allTargets), x, y) <==>
            Before(Chosen(order, recipes, [], true), x, y) && x in args && y in args
  {
    var extended, chosen := Extended(order, recipes), Chosen(order, recipes, args, allTargets);
    UniqHasNoDuplicates(Lines(Reverse(order)) + recipes);
    NoDuplicatesIsBefore(extended);
    ExtendedNames(pairs, order, recipes, x);
    assert extended != [] by {
      ExtendedNames(pairs, order, recipes, args[0]);
    }
    KeptMeaning(extended, args, x, y);
    forall z ensures !Before(chosen, z, z) {
      KeptMeaning(extended, args, z, z);
    }
    NoDuplicatesIsBefore(chosen);
  }

  /** The empty name, which is no recipe, is among the targets exactly where no target and no dependency is named. */
  lemma EmptyNameChosen(
    pairs: seq<Pair>, order: seq<Name>, recipes: seq<Name>, args: seq<Name>, allTargets: bool)
    requires Sorts(pairs, order) && Known(recipes, pairs, args) && "" !in recipes && recipes != []
    ensures (exists x :: x in Chosen(order, recipes, args, allTargets) && x !in recipes) <==> pairs == [] && args == []
    ensures pairs == [] && args == [] ==> [""] <= Chosen(order, recipes, args, allTargets)
    ensures args == [] && !allTargets ==> Chosen(order, recipes, args, allTargets) == if pairs == [] then [""] else []
  {
    var extended, chosen := Extended(order, recipes), Chosen(order, recipes, args, allTargets);
    forall x ensures x in extended <==> x in recipes || (x == "" && pairs == []) {
      ExtendedNames(pairs, order, recipes, x);
    }
    assert recipes[0] in extended;
    forall x ensures x in Kept(extended, Lines(args)) <==> x in extended && x in Lines(args) {
      KeptMeaning(extended, Lines(args), x, x);
    }
    NothingToSort(pairs, order);
    UniqExtends([""], recipes);
    if args == [] && !allTargets {
      forall x ensures !Before(chosen, x, x) {
        UniqHasNoDuplicates(Lines(Reverse(order)) + recipes);
        NoDuplicatesIsBefore(extended);
        KeptMeaning(extended, [""], x, x);
      }
      NoDuplicatesIsBefore(chosen);
      EmptyNameOnly(chosen);
    }
    if pairs == [] && args == [] {
      assert [""] <= chosen;
      assert "" in chosen;
    }
  }

  lemma EmptyNameOnly(s: seq<Name>)
    requires NoDuplicates(s) && forall x :: x in s ==> x == ""
    ensures s == if "" in s then [""] else []
  {
    var t := if "" in s then [""] else [];
    SameNames(s, t);
    assert |s| == |multiset(s)| == |multiset(t)| == |t|;
    assert s != [] ==> s[0] in s;
  }

  /** What `InstallDeps` hands on: an array that is null when expanded is handed on as nothing. */
  function Installed(targets: seq<Name>): seq<Name> {
    if targets == [""] then [] else targets
  }

  /** That name is handed on to be installed only where all targets are asked for besides. */
  lemma EmptyNameInstalled(
    pairs: seq<Pair>, order: seq<Name>, recipes: seq<Name>, args: seq<Name>, allTargets: bool)
    requires Sorts(pairs, order) && Known(recipes, pairs, args) && "" !in recipes && recipes != []
    ensures (exists x :: x in Installed(Chosen(order, recipes, args, allTargets)) && x !in recipes) <==>
              pairs == [] && args == [] && allTargets
  {
    EmptyNameChosen(pairs, order, recipes, args, allTargets);
    if pairs == [] && args == [] && allTargets {
      ExtendedNames(pairs, order, recipes, recipes[0]);
      assert recipes[0] in Chosen(order, recipes, args, allTargets);
    }
  }
}

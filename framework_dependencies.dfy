/**
 * `TargetChecksumHolder.allFrameworkDependencies`: the framework targets a
 * target depends on, directly or transitively, one holder per target name.
 */
module FrameworkDependencies {
  import opened Wrappers
  import opened ProductTypes
  import opened ChecksumHolders

  /** The holder's product type is the framework type (compared by raw value, as the source does). */
  predicate IsFramework<C(==)>(h: TargetChecksumHolder<C>) {
    RawValue(h.productType) == "com.apple.product-type.framework"
  }

  /** The names of the framework holders of a list. */
  function FrameworkNames<C(==)>(all: seq<TargetChecksumHolder<C>>): set<string> {
    set x | x in all && IsFramework(x) :: x.name
  }

  /** The names of the framework holders of a set. */
  ghost function FrameworkNamesIn<C>(s: set<TargetChecksumHolder<C>>): set<string> {
    set x | x in s && IsFramework(x) :: x.name
  }

  /** No framework holder named `n` comes after position `i`. */
  predicate LastFrameworkNamed<C(==)>(all: seq<TargetChecksumHolder<C>>, n: string, i: int)
    requires 0 <= i < |all|
  {
    forall j :: i < j < |all| ==> !(IsFramework(all[j]) && all[j].name == n)
  }

  /**
   * The dictionary the loop of the source fills: scanning `all` in order,
   * every framework holder is stored under its name, replacing what was there.
   */
  function LastFrameworkByName<C(==)>(all: seq<TargetChecksumHolder<C>>): map<string, TargetChecksumHolder<C>> {
    if all == [] then map[]
    else
      var m := LastFrameworkByName(all[..|all| - 1]);
      var d := all[|all| - 1];
      if IsFramework(d) then m[d.name := d] else m
  }

  /** The dictionary holds exactly the framework names of `all`. */
  lemma {:induction false} LastFrameworkByNameKeys<C>(all: seq<TargetChecksumHolder<C>>)
    ensures LastFrameworkByName(all).Keys == FrameworkNames(all)
  {
    if all != [] {
      var front := all[..|all| - 1];
      LastFrameworkByNameKeys(front);
      assert forall x :: x in all <==> x in front || x == all[|all| - 1];
    }
  }

  /** Under each name the dictionary holds a framework holder of that name, taken from `all`. */
  lemma {:induction false} LastFrameworkByNameEntries<C>(all: seq<TargetChecksumHolder<C>>)
    ensures forall n :: n in LastFrameworkByName(all) ==>
      LastFrameworkByName(all)[n].name == n && IsFramework(LastFrameworkByName(all)[n]) &&
      LastFrameworkByName(all)[n] in all
  {
    if all != [] {
      var front := all[..|all| - 1];
      LastFrameworkByNameEntries(front);
      assert forall x :: x in front ==> x in all;
    }
  }

  /** The holder kept under a name is the last framework holder of that name in `all`. */
  lemma {:induction false} LastFrameworkByNameIsLast<C>(all: seq<TargetChecksumHolder<C>>, n: string)
    requires n in LastFrameworkByName(all)
    ensures exists i :: 0 <= i < |all| && all[i] == LastFrameworkByName(all)[n] && LastFrameworkNamed(all, n, i)
  {
    var front := all[..|all| - 1];
    var d := all[|all| - 1];
    var m := LastFrameworkByName(all);
    if IsFramework(d) && n == d.name {
      assert all[|all| - 1] == m[n] && LastFrameworkNamed(all, n, |all| - 1);
    } else {
      assert m == (if IsFramework(d) then LastFrameworkByName(front)[d.name := d] else LastFrameworkByName(front));
      assert m[n] == LastFrameworkByName(front)[n];
      LastFrameworkByNameIsLast(front, n);
      assert all == front + [d];
      LastFrameworkNamedExtend(front, d, n);
    }
  }

  /** Appending a holder that is not a framework named `n` keeps the last holder named `n` the last one. */
  lemma LastFrameworkNamedExtend<C>(front: seq<TargetChecksumHolder<C>>, d: TargetChecksumHolder<C>, n: string)
    requires n in LastFrameworkByName(front)
    requires exists i :: 0 <= i < |front| && front[i] == LastFrameworkByName(front)[n] && LastFrameworkNamed(front, n, i)
    requires !(IsFramework(d) && d.name == n)
    ensures exists i :: 0 <= i < |front + [d]| && (front + [d])[i] == LastFrameworkByName(front)[n] && LastFrameworkNamed(front + [d], n, i)
  {
    var i :| 0 <= i < |front| && front[i] == LastFrameworkByName(front)[n] && LastFrameworkNamed(front, n, i);
    var all := front + [d];
    assert all[i] == front[i];
    forall j | i < j < |all| ensures !(IsFramework(all[j]) && all[j].name == n) {
      if j < |front| {
        assert all[j] == front[j];
      }
    }
  }

  /** The loop of lines 30-35: index the framework holders of `all` by name, later ones winning. */
  method IndexFrameworks<C(==)>(all: seq<TargetChecksumHolder<C>>) returns (uniq: map<string, TargetChecksumHolder<C>>)
    ensures uniq == LastFrameworkByName(all)
  {
    uniq := map[];
    var i := 0;
    while i < |all|
      invariant 0 <= i <= |all|
      invariant uniq == LastFrameworkByName(all[..i])
    {
      var dependency := all[i];
      assert all[..i + 1][..i] == all[..i];
      if IsFramework(dependency) {
        uniq := uniq[dependency.name := dependency];
      }
      i := i + 1;
    }
    assert all[..|all|] == all;
  }

  /** `Array(uniq.values)`: the holders of the dictionary, in no particular order. */
  method DictionaryValues<C(==)>(uniq: map<string, TargetChecksumHolder<C>>) returns (r: seq<TargetChecksumHolder<C>>)
    requires forall n :: n in uniq ==> uniq[n].name == n
    ensures forall x :: x in r ==> x.name in uniq && uniq[x.name] == x
    ensures forall i, j :: 0 <= i < j < |r| ==> r[i].name != r[j].name
    ensures (set x | x in r :: x.name) == uniq.Keys
  {
    r := [];
    var rest := uniq.Keys;
    while rest != {}
      invariant rest <= uniq.Keys
      invariant forall x :: x in r ==> x.name in uniq && uniq[x.name] == x && x.name !in rest
      invariant forall i, j :: 0 <= i < j < |r| ==> r[i].name != r[j].name
      invariant (set x | x in r :: x.name) == uniq.Keys - rest
      decreases rest
    {
      var n :| n in rest;
      ghost var names := set x | x in r :: x.name;
      r := r + [uniq[n]];
      rest := rest - {n};
      assert (set x | x in r :: x.name) == names + {n};
    }
  }

  /** Lines 30-37: one framework holder of `all` per framework name of `all`. */
  method UniqueFrameworks<C(==)>(all: seq<TargetChecksumHolder<C>>) returns (r: seq<TargetChecksumHolder<C>>)
    ensures forall x :: x in r ==> IsFramework(x) && x in all
    ensures forall x :: x in r ==> x.name in LastFrameworkByName(all) && LastFrameworkByName(all)[x.name] == x
    ensures forall i, j :: 0 <= i < j < |r| ==> r[i].name != r[j].name
    ensures (set x | x in r :: x.name) == FrameworkNames(all)
  {
    var uniq := IndexFrameworks(all);
    LastFrameworkByNameKeys(all);
    LastFrameworkByNameEntries(all);
    r := DictionaryValues(uniq);
  }

  /** The dependencies of `h` at positions below `i`, with all they reach. */
  ghost function ClosurePrefix<C>(h: TargetChecksumHolder<C>, i: nat): set<TargetChecksumHolder<C>>
    requires i <= |h.dependencies|
  {
    if i == 0 then set x | x in h.dependencies
    else ClosurePrefix(h, i - 1) + Closure(h.dependencies[i - 1])
  }

  /** A direct dependency, and all it reaches, is reachable. */
  lemma DependencyInClosure<C>(h: TargetChecksumHolder<C>, j: nat)
    requires j < |h.dependencies|
    ensures h.dependencies[j] in Closure(h)
    ensures Closure(h.dependencies[j]) <= Closure(h)
  {
    assert h.dependencies[j] in {h.dependencies[j]} + Closure(h.dependencies[j]);
    forall x | x in Closure(h.dependencies[j]) ensures x in Closure(h) {
      assert x in {h.dependencies[j]} + Closure(h.dependencies[j]);
    }
  }

  lemma {:induction false} ClosurePrefixWithin<C>(h: TargetChecksumHolder<C>, i: nat)
    requires i <= |h.dependencies|
    ensures ClosurePrefix(h, i) <= Closure(h)
  {
    if i > 0 {
      ClosurePrefixWithin(h, i - 1);
      DependencyInClosure(h, i - 1);
    } else {
      forall x | x in h.dependencies ensures x in Closure(h) {
        var j :| 0 <= j < |h.dependencies| && h.dependencies[j] == x;
        DependencyInClosure(h, j);
      }
    }
  }

  lemma {:induction false} ClosurePrefixCovers<C>(h: TargetChecksumHolder<C>, i: nat, j: nat)
    requires j < i <= |h.dependencies|
    ensures h.dependencies[j] in ClosurePrefix(h, i)
    ensures Closure(h.dependencies[j]) <= ClosurePrefix(h, i)
  {
    if j < i - 1 {
      ClosurePrefixCovers(h, i - 1, j);
    } else {
      assert h.dependencies[j] in ClosurePrefix(h, 0);
      ClosurePrefixMonotone(h, 0, i - 1);
    }
  }

  lemma {:induction false} ClosurePrefixMonotone<C>(h: TargetChecksumHolder<C>, i: nat, k: nat)
    requires i <= k <= |h.dependencies|
    ensures ClosurePrefix(h, i) <= ClosurePrefix(h, k)
    decreases k - i
  {
    if i < k {
      ClosurePrefixMonotone(h, i, k - 1);
    }
  }

  /** All dependencies and what they reach make up the whole closure. */
  lemma ClosurePrefixComplete<C>(h: TargetChecksumHolder<C>)
    ensures ClosurePrefix(h, |h.dependencies|) == Closure(h)
  {
    var n := |h.dependencies|;
    ClosurePrefixWithin(h, n);
    forall x | x in Closure(h) ensures x in ClosurePrefix(h, n) {
      ClosureMember(h, x);
      var j :| 0 <= j < n && (x == h.dependencies[j] || x in Closure(h.dependencies[j]));
      ClosurePrefixCovers(h, n, j);
    }
  }

  /** Appending framework holders adds exactly their names. */
  lemma FrameworkNamesAppend<C>(all: seq<TargetChecksumHolder<C>>, sub: seq<TargetChecksumHolder<C>>)
    requires forall x :: x in sub ==> IsFramework(x)
    ensures FrameworkNames(all + sub) == FrameworkNames(all) + (set x | x in sub :: x.name)
  {
    assert forall x :: x in all + sub <==> x in all || x in sub;
  }

  lemma FrameworkNamesInUnion<C>(a: set<TargetChecksumHolder<C>>, b: set<TargetChecksumHolder<C>>)
    ensures FrameworkNamesIn(a + b) == FrameworkNamesIn(a) + FrameworkNamesIn(b)
  {
  }

  /** One step of the flatMap: appending the frameworks of dependency `i` covers its closure. */
  lemma FlatMapStep<C>(h: TargetChecksumHolder<C>, i: nat, all: seq<TargetChecksumHolder<C>>, sub: seq<TargetChecksumHolder<C>>)
    requires i < |h.dependencies|
    requires FrameworkNames(all) == FrameworkNamesIn(ClosurePrefix(h, i))
    requires forall x :: x in sub ==> IsFramework(x)
    requires (set x | x in sub :: x.name) == FrameworkNamesIn(Closure(h.dependencies[i]))
    ensures FrameworkNames(all + sub) == FrameworkNamesIn(ClosurePrefix(h, i + 1))
  {
    FrameworkNamesAppend(all, sub);
    FrameworkNamesInUnion(ClosurePrefix(h, i), Closure(h.dependencies[i]));
  }

  /** Appending a list whose holders lie in `s` to one whose holders do keeps every holder in `s`. */
  lemma AppendWithin<C>(all: seq<TargetChecksumHolder<C>>, sub: seq<TargetChecksumHolder<C>>, s: set<TargetChecksumHolder<C>>)
    requires AllIn(all, s)
    requires forall x :: x in sub ==> x in s
    ensures AllIn(all + sub, s)
  {
  }

  /** Every holder of `xs` lies in `s`. */
  ghost predicate AllIn<C>(xs: seq<TargetChecksumHolder<C>>, s: set<TargetChecksumHolder<C>>) {
    forall x :: x in xs ==> x in s
  }

  /**
   * `allFrameworkDependencies`: one framework holder per name reachable from
   * `h`, each of them reachable from `h`, and no name missing.
   */
  method AllFrameworkDependencies<C(==)>(h: TargetChecksumHolder<C>) returns (r: seq<TargetChecksumHolder<C>>)
    ensures forall x :: x in r ==> IsFramework(x) && x in Closure(h)
    ensures forall i, j :: 0 <= i < j < |r| ==> r[i].name != r[j].name
    ensures (set x | x in r :: x.name) == FrameworkNamesIn(Closure(h))
    ensures forall x :: x in r ==> Winner(h, x.name) == Some(x)
    ensures forall n :: Winner(h, n).Some? <==> n in (set x | x in r :: x.name)
    decreases h, 2
  {
    var all := CollectDependencies(h);
    r := UniqueFrameworks(all);
    forall x | x in r ensures Winner(h, x.name) == Some(x) {
      assert Entry(LastFrameworkByName(all), x.name) == Some(x);
    }
    LastFrameworkByNameKeys(all);
    forall n ensures Winner(h, n).Some? <==> n in (set x | x in r :: x.name) {
      assert Entry(LastFrameworkByName(all), n) == Winner(h, n);
    }
  }

  /** The entry of a dictionary under `n`, if any. */
  function Entry<C>(m: map<string, TargetChecksumHolder<C>>, n: string): Option<TargetChecksumHolder<C>> {
    if n in m then Some(m[n]) else None
  }

  /**
   * The holder `allFrameworkDependencies` keeps under the name `n`, stated
   * without the dictionary: the one kept by the last dependency whose own
   * result has that name, or else the last framework holder of that name
   * among the direct dependencies. The order in which each dependency's
   * result lists its holders does not matter, since its names are distinct.
   */
  ghost function Winner<C>(h: TargetChecksumHolder<C>, n: string): Option<TargetChecksumHolder<C>>
    decreases h, 1
  {
    WinnerFrom(h, n, |h.dependencies|)
  }

  /** `Winner` once the direct dependencies and the results of the first `i` of them are scanned. */
  ghost function WinnerFrom<C>(h: TargetChecksumHolder<C>, n: string, i: nat): Option<TargetChecksumHolder<C>>
    requires i <= |h.dependencies|
    decreases h, 0, i
  {
    if i == 0 then Entry(LastFrameworkByName(h.dependencies), n)
    else
      assert h.dependencies[i - 1] in h.dependencies;
      match Winner(h.dependencies[i - 1], n)
      case Some(x) => Some(x)
      case None => WinnerFrom(h, n, i - 1)
  }

  /**
   * Appending framework holders with distinct names: a name they carry is
   * now kept with their holder, any other name keeps its entry.
   */
  lemma {:induction false} LastFrameworkByNameAppend<C>(all: seq<TargetChecksumHolder<C>>, sub: seq<TargetChecksumHolder<C>>, n: string)
    requires forall x :: x in sub ==> IsFramework(x)
    requires forall i, j :: 0 <= i < j < |sub| ==> sub[i].name != sub[j].name
    ensures forall x :: x in sub && x.name == n ==> Entry(LastFrameworkByName(all + sub), n) == Some(x)
    ensures (forall x :: x in sub ==> x.name != n) ==> Entry(LastFrameworkByName(all + sub), n) == Entry(LastFrameworkByName(all), n)
  {
    if sub == [] {
      assert all + sub == all;
    } else {
      var front := sub[..|sub| - 1];
      var y := sub[|sub| - 1];
      var zs := all + front;
      assert sub == front + [y];
      assert all + sub == zs + [y];
      LastFrameworkByNameSnoc(zs, y);
      DistinctLast(sub, front);
      LastFrameworkByNameAppend(all, front, n);
      if y.name == n {
        assert Entry(LastFrameworkByName(all + sub), n) == Some(y);
      } else {
        assert Entry(LastFrameworkByName(all + sub), n) == Entry(LastFrameworkByName(zs), n);
        assert forall x :: x in sub && x.name == n ==> x in front;
      }
    }
  }

  /** Appending one holder: a framework is stored under its name, anything else changes nothing. */
  lemma LastFrameworkByNameSnoc<C>(xs: seq<TargetChecksumHolder<C>>, y: TargetChecksumHolder<C>)
    ensures LastFrameworkByName(xs + [y]) == if IsFramework(y) then LastFrameworkByName(xs)[y.name := y] else LastFrameworkByName(xs)
  {
    assert (xs + [y])[..|xs + [y]| - 1] == xs;
  }

  /** In a list with distinct names, the last holder's name is nowhere before it. */
  lemma DistinctLast<C>(sub: seq<TargetChecksumHolder<C>>, front: seq<TargetChecksumHolder<C>>)
    requires sub != [] && front == sub[..|sub| - 1]
    requires forall i, j :: 0 <= i < j < |sub| ==> sub[i].name != sub[j].name
    ensures forall i, j :: 0 <= i < j < |front| ==> front[i].name != front[j].name
    ensures forall x :: x in front ==> x.name != sub[|sub| - 1].name
    ensures forall x :: x in sub ==> x in front || x == sub[|sub| - 1]
  {
    forall x | x in front ensures x.name != sub[|sub| - 1].name {
      var k :| 0 <= k < |front| && front[k] == x;
      assert sub[k] == x;
    }
    assert sub == front + [sub[|sub| - 1]];
  }

  /**
   * `dependencies + dependencies.flatMap { $0.allFrameworkDependencies }`:
   * holders reachable from `h` whose framework names are all those reachable.
   */
  method CollectDependencies<C(==)>(h: TargetChecksumHolder<C>) returns (all: seq<TargetChecksumHolder<C>>)
    ensures |h.dependencies| <= |all| && all[..|h.dependencies|] == h.dependencies
    ensures AllIn(all, Closure(h))
    ensures FrameworkNames(all) == FrameworkNamesIn(Closure(h))
    ensures forall n :: Entry(LastFrameworkByName(all), n) == Winner(h, n)
    decreases h, 1
  {
    all := h.dependencies;
    CollectStart(h);
    var i := 0;
    while i < |h.dependencies|
      invariant 0 <= i <= |h.dependencies|
      invariant |h.dependencies| <= |all| && all[..|h.dependencies|] == h.dependencies
      invariant AllIn(all, Closure(h))
      invariant FrameworkNames(all) == FrameworkNamesIn(ClosurePrefix(h, i))
      invariant forall n :: Entry(LastFrameworkByName(all), n) == WinnerFrom(h, n, i)
    {
      all := CollectRound(h, i, all);
      i := i + 1;
    }
    ClosurePrefixComplete(h);
  }

  /** One round of the flatMap: append the framework dependencies of dependency `i`. */
  method CollectRound<C(==)>(h: TargetChecksumHolder<C>, i: nat, all: seq<TargetChecksumHolder<C>>) returns (next: seq<TargetChecksumHolder<C>>)
    requires i < |h.dependencies|
    requires |h.dependencies| <= |all| && all[..|h.dependencies|] == h.dependencies
    requires AllIn(all, Closure(h))
    requires FrameworkNames(all) == FrameworkNamesIn(ClosurePrefix(h, i))
    requires forall n :: Entry(LastFrameworkByName(all), n) == WinnerFrom(h, n, i)
    ensures |all| <= |next| && next[..|all|] == all
    ensures |h.dependencies| <= |next| && next[..|h.dependencies|] == h.dependencies
    ensures AllIn(next, Closure(h))
    ensures FrameworkNames(next) == FrameworkNamesIn(ClosurePrefix(h, i + 1))
    ensures forall n :: Entry(LastFrameworkByName(next), n) == WinnerFrom(h, n, i + 1)
    decreases h, 0
  {
    var dependency := h.dependencies[i];
    assert dependency in h.dependencies;
    var sub := AllFrameworkDependencies(dependency);
    CollectStep(h, i, all, sub);
    WinnerStep(h, i, all, sub);
    next := all + sub;
    assert next[..|all|] == all;
  }

  /** One round of the flatMap moves the kept holders from `WinnerFrom(h, _, i)` to `WinnerFrom(h, _, i + 1)`. */
  lemma WinnerStep<C>(h: TargetChecksumHolder<C>, i: nat, all: seq<TargetChecksumHolder<C>>, sub: seq<TargetChecksumHolder<C>>)
    requires i < |h.dependencies|
    requires forall n :: Entry(LastFrameworkByName(all), n) == WinnerFrom(h, n, i)
    requires forall x :: x in sub ==> IsFramework(x)
    requires forall i, j :: 0 <= i < j < |sub| ==> sub[i].name != sub[j].name
    requires forall x :: x in sub ==> Winner(h.dependencies[i], x.name) == Some(x)
    requires forall n :: Winner(h.dependencies[i], n).Some? <==> n in (set x | x in sub :: x.name)
    ensures forall n :: Entry(LastFrameworkByName(all + sub), n) == WinnerFrom(h, n, i + 1)
  {
    forall n ensures Entry(LastFrameworkByName(all + sub), n) == WinnerFrom(h, n, i + 1) {
      LastFrameworkByNameAppend(all, sub, n);
      if Winner(h.dependencies[i], n).Some? {
        assert n in (set x | x in sub :: x.name);
        var x :| x in sub && x.name == n;
      }
    }
  }

  lemma CollectStart<C>(h: TargetChecksumHolder<C>)
    ensures AllIn(h.dependencies, Closure(h))
    ensures FrameworkNames(h.dependencies) == FrameworkNamesIn(ClosurePrefix(h, 0))
  {
    ClosurePrefixWithin(h, 0);
  }

  /** One round of the flatMap: appending the frameworks of dependency `i` keeps both loop facts. */
  lemma CollectStep<C>(h: TargetChecksumHolder<C>, i: nat, all: seq<TargetChecksumHolder<C>>, sub: seq<TargetChecksumHolder<C>>)
    requires i < |h.dependencies|
    requires |h.dependencies| <= |all| && all[..|h.dependencies|] == h.dependencies
    requires AllIn(all, Closure(h))
    requires FrameworkNames(all) == FrameworkNamesIn(ClosurePrefix(h, i))
    requires forall x :: x in sub ==> IsFramework(x) && x in Closure(h.dependencies[i])
    requires (set x | x in sub :: x.name) == FrameworkNamesIn(Closure(h.dependencies[i]))
    ensures (all + sub)[..|h.dependencies|] == h.dependencies
    ensures AllIn(all + sub, Closure(h))
    ensures FrameworkNames(all + sub) == FrameworkNamesIn(ClosurePrefix(h, i + 1))
  {
    assert (all + sub)[..|h.dependencies|] == all[..|h.dependencies|];
    DependencyInClosure(h, i);
    FlatMapStep(h, i, all, sub);
    AppendWithin(all, sub, Closure(h));
  }
}

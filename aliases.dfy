/**
 * `AliasManager` (dcorm/alias.py): a registry of the aliases of a query by
 * name, which names unnamed aliases `t1`, `t2`, ... with the least number
 * not yet taken.
 */
module Aliases {
  import opened Outcomes
  import opened Values
  import opened Schema
  import opened Text

  /** `f't{counter}'`. */
  function AutoName(n: nat): (s: string)
    ensures |s| >= 2 && s[0] == 't' && s[1..] == NatToString(n)
  {
    "t" + NatToString(n)
  }

  lemma AutoNameInjective(m: nat, n: nat)
    ensures AutoName(m) == AutoName(n) ==> m == n
  {
    if AutoName(m) == AutoName(n) {
      assert AutoName(m)[1..] == AutoName(n)[1..];
      NatToStringInjective(m, n);
    }
  }

  /**
   * The first counter from `k` on whose name is not in `keys`. Removing the
   * names already passed keeps the answer (names are injective) and bounds
   * the search.
   */
  function LeastFreeFrom(keys: set<string>, k: nat): (c: nat)
    ensures c >= k && AutoName(c) !in keys
    decreases |keys|
  {
    if AutoName(k) !in keys then k
    else
      var c := LeastFreeFrom(keys - {AutoName(k)}, k + 1);
      AutoNameInjective(c, k);
      c
  }

  /** Every counter the search passes has its name in `keys`. */
  lemma {:induction false} LeastFreeFromLeast(keys: set<string>, k: nat, j: nat)
    requires k <= j < LeastFreeFrom(keys, k)
    ensures AutoName(j) in keys
    decreases |keys|
  {
    if j > k {
      LeastFreeFromLeast(keys - {AutoName(k)}, k + 1, j);
    }
  }

  /** The counter `get_unique_alias` stops at. */
  function LeastFree(keys: set<string>): (c: nat)
    ensures c >= 1 && AutoName(c) !in keys
  {
    LeastFreeFrom(keys, 1)
  }

  /** `LeastFree(keys)` is the least counter from 1 whose name is not in `keys`. */
  lemma LeastFreeLeast(keys: set<string>, j: nat)
    requires 1 <= j
    ensures AutoName(j) !in keys ==> LeastFree(keys) <= j
    ensures j < LeastFree(keys) ==> AutoName(j) in keys
  {
    if j < LeastFree(keys) {
      LeastFreeFromLeast(keys, 1, j);
    }
  }

  /** The names `t1` .. `tn`. */
  function NamesUpTo(n: nat): set<string> {
    set j | 1 <= j <= n :: AutoName(j)
  }

  /** With `t1` .. `tn` taken, the next name is `t(n+1)`. */
  lemma LeastFreeAfter(n: nat)
    ensures LeastFree(NamesUpTo(n)) == n + 1
  {
    var c := LeastFree(NamesUpTo(n));
    if AutoName(n + 1) in NamesUpTo(n) {
      var j :| 1 <= j <= n && AutoName(j) == AutoName(n + 1);
      AutoNameInjective(j, n + 1);
      assert false;
    }
    LeastFreeLeast(NamesUpTo(n), n + 1);
    assert c > n;
  }

  /** The registry after registering the first `k` aliases of `list` under `t1` .. `tk`. */
  function NamedInOrder(list: seq<Alias>, k: nat): map<string, Alias>
    requires k <= |list|
  {
    if k == 0 then map[] else NamedInOrder(list, k - 1)[AutoName(k) := list[k - 1]]
  }

  /** The names registered are exactly `t1` .. `tk`. */
  lemma {:induction false} NamedInOrderKeys(list: seq<Alias>, k: nat)
    requires k <= |list|
    ensures NamedInOrder(list, k).Keys == NamesUpTo(k)
  {
    if k > 0 {
      NamedInOrderKeys(list, k - 1);
      assert NamesUpTo(k) == NamesUpTo(k - 1) + {AutoName(k)};
    }
  }

  /** `tj` is registered for the j-th alias. */
  lemma {:induction false} NamedInOrderLookup(list: seq<Alias>, k: nat, j: nat)
    requires 1 <= j <= k <= |list|
    ensures AutoName(j) in NamedInOrder(list, k) && NamedInOrder(list, k)[AutoName(j)] == list[j - 1]
  {
    if j < k {
      NamedInOrderLookup(list, k - 1, j);
      AutoNameInjective(j, k);
    }
  }

  /** No alias occurs twice. */
  predicate Distinct(list: seq<Alias>) {
    forall i, j :: 0 <= i < |list| && 0 <= j < |list| && i != j ==> list[i] != list[j]
  }

  /**
   * After `t1` .. `tk`, the probe stops at `t(k+1)`, which is free, and
   * registering it extends the registry by one entry.
   */
  lemma NamedInOrderNext(list: seq<Alias>, k: nat)
    requires k < |list|
    ensures LeastFree(NamedInOrder(list, k).Keys) == k + 1
    ensures AutoName(k + 1) !in NamedInOrder(list, k)
    ensures NamedInOrder(list, k)[AutoName(k + 1) := list[k]] == NamedInOrder(list, k + 1)
  {
    NamedInOrderKeys(list, k);
    LeastFreeAfter(k);
  }

  /** The current names of the aliases of `list`, in order. */
  function CurrentNames(list: seq<Alias>): (names: seq<Option<string>>)
    reads set i | 0 <= i < |list| :: list[i]
    ensures |names| == |list|
  {
    seq(|list|, i reads set i | 0 <= i < |list| :: list[i] requires 0 <= i < |list| => list[i].name)
  }

  /** Occurrences of the same alias have the same name, as they do on the heap. */
  predicate Consistent(list: seq<Alias>, names: seq<Option<string>>)
    requires |names| == |list|
  {
    forall i, j :: 0 <= i < |list| && 0 <= j < |list| && list[i] == list[j] ==> names[i] == names[j]
  }

  /** The names read from the heap are consistent: one object has one name. */
  lemma CurrentNamesConsistent(list: seq<Alias>)
    ensures Consistent(list, CurrentNames(list))
  {
  }

  /** The registry, the names of the aliases of a list, and the error registering stopped at. */
  datatype Registration = Registration(reg: map<string, Alias>, names: seq<Option<string>>, err: Option<Error>)

  /**
   * `register_alias(list[k])` on values: the alias keeps a set name or
   * gets the least free `t<N>` (every occurrence of the same alias in
   * `list` sees the new name), and is added under it unless that name is
   * already registered.
   */
  function Step(list: seq<Alias>, reg: map<string, Alias>, names: seq<Option<string>>, k: nat): (s: Registration)
    requires |names| == |list| && k < |list|
    ensures |s.names| == |list|
    ensures names[k].None? ==> s.err.None?
    ensures Consistent(list, names) ==> Consistent(list, s.names)
  {
    var name := if names[k].Some? then names[k].value else AutoName(LeastFree(reg.Keys));
    var renamed := seq(|list|, i requires 0 <= i < |list| => if list[i] == list[k] then Some(name) else names[i]);
    if name in reg then Registration(reg, renamed, Some(RuntimeError("Duplicate alias: " + name)))
    else Registration(reg[name := list[k]], renamed, None)
  }

  /** `register_aliases` on values, from the `k`-th alias on: one step per alias, stopping at the first error. */
  function Register(list: seq<Alias>, reg: map<string, Alias>, names: seq<Option<string>>, k: nat): (r: Registration)
    requires |names| == |list| && k <= |list|
    ensures |r.names| == |list|
    decreases |list| - k
  {
    if k == |list| then Registration(reg, names, None)
    else
      var s := Step(list, reg, names, k);
      if s.err.Some? then s else Register(list, s.reg, s.names, k + 1)
  }

  /** The `i`-th alias has a name and is registered under it. */
  predicate Registered(list: seq<Alias>, r: Registration, i: nat)
    requires |r.names| == |list| && i < |list|
  {
    r.names[i].Some? && r.names[i].value in r.reg && r.reg[r.names[i].value] == list[i]
  }

  /** Registering never replaces an entry, and a name once set is kept. */
  lemma {:induction false} RegisterKeeps(list: seq<Alias>, reg: map<string, Alias>, names: seq<Option<string>>, k: nat)
    requires |names| == |list| && k <= |list| && Consistent(list, names)
    ensures forall n :: n in reg ==> n in Register(list, reg, names, k).reg && Register(list, reg, names, k).reg[n] == reg[n]
    ensures forall i :: 0 <= i < |list| && names[i].Some? ==> Register(list, reg, names, k).names[i] == names[i]
    decreases |list| - k
  {
    if k < |list| {
      var s := Step(list, reg, names, k);
      if s.err.None? {
        RegisterKeeps(list, s.reg, s.names, k + 1);
      }
    }
  }

  /** The alias a step registers is registered, under a name it keeps, once the later steps are done. */
  lemma StepRegistered(list: seq<Alias>, reg: map<string, Alias>, names: seq<Option<string>>, k: nat)
    requires |names| == |list| && k < |list| && Consistent(list, names)
    requires Step(list, reg, names, k).err.None?
    ensures var s := Step(list, reg, names, k);
      k + 1 <= |list| && Registered(list, Register(list, s.reg, s.names, k + 1), k)
  {
    var s := Step(list, reg, names, k);
    var name := s.names[k].value;
    assert s.names[k] == Some(name) && name in s.reg && s.reg[name] == list[k];
    RegisterKeeps(list, s.reg, s.names, k + 1);
  }

  /** Without an error, every alias from the `k`-th on is registered under its name. */
  lemma {:induction false} RegisterAll(list: seq<Alias>, reg: map<string, Alias>, names: seq<Option<string>>, k: nat, i: nat)
    requires |names| == |list| && k <= i < |list| && Consistent(list, names)
    ensures Register(list, reg, names, k).err.None? ==> Registered(list, Register(list, reg, names, k), i)
    decreases |list| - k
  {
    var s := Step(list, reg, names, k);
    if s.err.None? {
      assert Register(list, reg, names, k) == Register(list, s.reg, s.names, k + 1);
      if i == k {
        StepRegistered(list, reg, names, k);
      } else {
        RegisterAll(list, s.reg, s.names, k + 1, i);
      }
    }
  }

  /** The alias registering stopped at: its name is already taken, and the ones before it are registered. */
  predicate StoppedAt(list: seq<Alias>, r: Registration, k: nat, j: nat)
    requires |r.names| == |list| && k <= j < |list|
  {
    && r.names[j].Some? && r.names[j].value in r.reg
    && r.err == Some(RuntimeError("Duplicate alias: " + r.names[j].value))
    && forall i :: k <= i < j ==> Registered(list, r, i)
  }

  /** A step that fails stops registering there. */
  lemma StepStops(list: seq<Alias>, reg: map<string, Alias>, names: seq<Option<string>>, k: nat)
    requires |names| == |list| && k < |list| && Step(list, reg, names, k).err.Some?
    ensures StoppedAt(list, Register(list, reg, names, k), k, k)
  {
  }

  /** A step that succeeds joins the registered prefix of wherever the later steps stop. */
  lemma StepThenStops(list: seq<Alias>, reg: map<string, Alias>, names: seq<Option<string>>, k: nat, j: nat)
    requires |names| == |list| && k < j < |list| && Consistent(list, names)
    requires Step(list, reg, names, k).err.None?
    requires var s := Step(list, reg, names, k); StoppedAt(list, Register(list, s.reg, s.names, k + 1), k + 1, j)
    ensures StoppedAt(list, Register(list, reg, names, k), k, j)
  {
    var s := Step(list, reg, names, k);
    var r := Register(list, s.reg, s.names, k + 1);
    assert Register(list, reg, names, k) == r;
    StepRegistered(list, reg, names, k);
    assert forall i :: k <= i < j ==> Registered(list, r, i);
  }

  /**
   * An error names the `j`-th alias: the ones before it are registered, its
   * name is already taken, and it was not added.
   */
  lemma {:induction false} RegisterStops(list: seq<Alias>, reg: map<string, Alias>, names: seq<Option<string>>, k: nat)
    requires |names| == |list| && k <= |list| && Consistent(list, names)
    ensures var r := Register(list, reg, names, k);
      r.err.Some? ==> exists j :: k <= j < |list| && StoppedAt(list, r, k, j)
    decreases |list| - k
  {
    if k < |list| {
      var s := Step(list, reg, names, k);
      var r := Register(list, reg, names, k);
      if s.err.Some? {
        StepStops(list, reg, names, k);
      } else if r.err.Some? {
        RegisterStops(list, s.reg, s.names, k + 1);
        var j :| k + 1 <= j < |list| && StoppedAt(list, Register(list, s.reg, s.names, k + 1), k + 1, j);
        StepThenStops(list, reg, names, k, j);
      }
    }
  }

  /** The names `t1` .. `tk` for the first `k` aliases, none for the others. */
  function NamesBefore(n: nat, k: nat): (names: seq<Option<string>>)
    requires k <= n
    ensures |names| == n
  {
    seq(n, i requires 0 <= i < n => if i < k then Some(AutoName(i + 1)) else None)
  }

  /** With `t1` .. `tk` registered, the next distinct unnamed alias is registered as `t(k+1)`. */
  lemma StepClean(list: seq<Alias>, k: nat)
    requires Distinct(list) && k < |list|
    ensures Step(list, NamedInOrder(list, k), NamesBefore(|list|, k), k)
      == Registration(NamedInOrder(list, k + 1), NamesBefore(|list|, k + 1), None)
  {
    NamedInOrderNext(list, k);
    var s := Step(list, NamedInOrder(list, k), NamesBefore(|list|, k), k);
    assert s.names == NamesBefore(|list|, k + 1);
  }

  /** Distinct unnamed aliases registered from an empty registry are named `t1` .. `tn` in order. */
  lemma {:induction false} RegisterClean(list: seq<Alias>, k: nat)
    requires Distinct(list) && k <= |list|
    ensures Register(list, NamedInOrder(list, k), NamesBefore(|list|, k), k)
      == Registration(NamedInOrder(list, |list|), NamesBefore(|list|, |list|), None)
    decreases |list| - k
  {
    if k < |list| {
      StepClean(list, k);
      RegisterClean(list, k + 1);
    }
  }

  /** Distinct unnamed aliases registered with an empty registry are all registered, as `t1` .. `tn` in order. */
  lemma RegisterFromEmpty(list: seq<Alias>, names: seq<Option<string>>)
    requires Distinct(list) && |names| == |list|
    requires forall i :: 0 <= i < |names| ==> names[i].None?
    ensures var r := Register(list, map[], names, 0);
      r.err.None? && r.reg == NamedInOrder(list, |list|)
      && forall i :: 0 <= i < |list| ==> r.names[i] == Some(AutoName(i + 1))
  {
    assert names == NamesBefore(|list|, 0);
    RegisterClean(list, 0);
  }

  class AliasManager {
    /** The registered aliases by name. */
    var aliases: map<string, Alias>

    constructor ()
      ensures aliases == map[]
    {
      aliases := map[];
    }

    /** `__enter__`. */
    method Enter() returns (r: AliasManager)
      ensures r == this
    {
      return this;
    }

    /** `__exit__`: the registry is cleared. */
    method Exit()
      modifies this
      ensures aliases == map[]
    {
      aliases := map[];
    }

    /** Names the alias with the least `t<N>`, N >= 1, that is not registered; the registry is unchanged. */
    method GetUniqueAlias(alias: Alias) returns (name: string)
      modifies alias
      ensures name == AutoName(LeastFree(aliases.Keys)) && name !in aliases
      ensures alias.name == Some(name) && alias.model == old(alias.model)
    {
      var counter := 1;
      ghost var remaining := aliases.Keys;
      while AutoName(counter) in aliases
        invariant counter >= 1 && remaining <= aliases.Keys
        invariant LeastFreeFrom(remaining, counter) == LeastFree(aliases.Keys)
        invariant forall j :: j >= counter ==> (AutoName(j) in remaining <==> AutoName(j) in aliases)
        decreases |remaining|
      {
        remaining := remaining - {AutoName(counter)};
        forall j | j >= counter + 1
          ensures AutoName(j) in remaining <==> AutoName(j) in aliases
        {
          AutoNameInjective(j, counter);
        }
        counter := counter + 1;
      }
      name := AutoName(counter);
      alias.name := Some(name);
    }

    /** The alias's name, generated first when it has none; a set name is kept. */
    method GetAliasName(alias: Alias) returns (name: string)
      modifies alias
      ensures old(alias.name).Some? ==> name == old(alias.name).value
      ensures old(alias.name).None? ==> name == AutoName(LeastFree(aliases.Keys))
      ensures alias.name == Some(name) && alias.model == old(alias.model)
    {
      if alias.name.None? {
        name := GetUniqueAlias(alias);
      } else {
        name := alias.name.value;
      }
    }

    /**
     * Registers the alias under its name: a name already registered is a
     * RuntimeError and leaves the registry as it was; otherwise exactly
     * one entry is added. A generated name never collides.
     */
    method RegisterAlias(alias: Alias) returns (err: Option<Error>)
      modifies this, alias
      ensures alias.name.Some? && alias.model == old(alias.model)
      ensures old(alias.name).Some? ==> alias.name == old(alias.name)
      ensures old(alias.name).None? ==> alias.name == Some(AutoName(LeastFree(old(aliases).Keys))) && err.None?
      ensures alias.name.value in old(aliases) ==>
        err == Some(RuntimeError("Duplicate alias: " + alias.name.value)) && aliases == old(aliases)
      ensures alias.name.value !in old(aliases) ==>
        err.None? && aliases == old(aliases)[alias.name.value := alias]
    {
      var name := GetAliasName(alias);
      if name in aliases {
        return Some(RuntimeError("Duplicate alias: " + name));
      }
      aliases := aliases[name := alias];
      err := None;
    }

    /** One iteration of `register_aliases`: `register_alias(list[k])`, as `Step` states it on values. */
    method RegisterNext(list: seq<Alias>, k: nat) returns (err: Option<Error>)
      requires k < |list|
      modifies this, list[k]
      ensures var s := Step(list, old(aliases), old(CurrentNames(list)), k);
        aliases == s.reg && CurrentNames(list) == s.names && err == s.err
      ensures list[k].model == old(list[k].model)
    {
      ghost var names := CurrentNames(list);
      err := RegisterAlias(list[k]);
      ghost var s := Step(list, old(aliases), names, k);
      forall i | 0 <= i < |list|
        ensures CurrentNames(list)[i] == s.names[i]
      {
      }
    }

    /**
     * Registers the aliases in order, stopping at the first error, as
     * `Register` states it on values; no alias changes model.
     */
    method RegisterAliases(list: seq<Alias>) returns (err: Option<Error>)
      modifies this, set i | 0 <= i < |list| :: list[i]
      ensures var r := Register(list, old(aliases), old(CurrentNames(list)), 0);
        aliases == r.reg && CurrentNames(list) == r.names && err == r.err
      ensures forall i :: 0 <= i < |list| ==> list[i].model == old(list[i].model)
    {
      ghost var start := aliases;
      ghost var names := CurrentNames(list);
      ghost var models := seq(|list|, i reads set i | 0 <= i < |list| :: list[i] requires 0 <= i < |list| => list[i].model);
      err := None;
      for k := 0 to |list|
        invariant err.None?
        invariant Register(list, aliases, CurrentNames(list), k) == Register(list, start, names, 0)
        invariant forall i :: 0 <= i < |list| ==> list[i].model == models[i]
      {
        err := RegisterNext(list, k);
        if err.Some? {
          return;
        }
      }
    }
  }
}

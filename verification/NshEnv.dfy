/**
The `set`, `unset` and `export` commands and `$name` expansion over two stores:
the NSH variables of `NshVars` and the environment. `Act` says what a command does
to the records and the environment, for every name. `ActApartExactly` and
`RunApartExactly` say exactly when no name gets into both stores. With names
without an equal sign none ever does, so the order in which expansion searches
the stores cannot be seen.
*/
module NshEnv {
  import opened NshBasics
  import opened NshVars

  /** One command, with the answers of the allocator (`canAllocate`) and of the environment (`envOk`). */
  datatype Command =
    | CmdSet(name: string, value: string, canAllocate: bool, envOk: bool)
    | CmdUnset(name: string, canAllocate: bool, envOk: bool)
    | CmdExport(name: string, given: Option<string>, canAllocate: bool, envOk: bool)

  /** The arguments are C strings. */
  predicate Texts(c: Command)
  {
    '\0' !in c.name && (c.CmdSet? ==> '\0' !in c.value)
  }

  /** And the name has no equal sign. */
  predicate GoodCommand(c: Command)
  {
    Texts(c) && '=' !in c.name
  }

  datatype Stores = Stores(recs: seq<Rec>, env: map<string, string>)

  /** What a command does to the two stores. */
  function Act(s: Stores, c: Command): Stores
  {
    match c
    case CmdSet(name, value, canAllocate, envOk) =>
      if name in s.env then
        if envOk then s.(env := s.env[name := value]) else s
      else
        s.(recs := SetRecs(s.recs, name, value, canAllocate))
    case CmdUnset(name, _, envOk) =>
      Stores(DropFound(s.recs, name), if envOk then s.env - {name} else s.env)
    case CmdExport(name, given, _, envOk) =>
      if !envOk then s
      else Stores(DropFound(s.recs, name), s.env[name := ExportValue(s.recs, name, given)])
  }

  /** The value that is exported: the one given, that of the variable, or nothing. */
  function ExportValue(recs: seq<Rec>, name: string, given: Option<string>): string
  {
    var found := GetRecs(recs, name);
    if given.Some? then given.value else if found.Some? then found.value else ""
  }

  function Acts(s: Stores, cs: seq<Command>): Stores
    decreases |cs|
  {
    if cs == [] then s else Acts(Act(s, cs[0]), cs[1..])
  }

  // ----- names in both stores -----

  /** The names that a variable block holds. */
  ghost function NamesOf(recs: seq<Rec>): set<string>
  {
    set k | 0 <= k < |recs| :: recs[k].name
  }

  ghost predicate Apart(s: Stores)
  {
    NamesOf(s.recs) !! s.env.Keys
  }

  /** What must hold before a command so that it puts no name into both stores. */
  ghost predicate Safe(s: Stores, c: Command)
  {
    match c
    case CmdSet(name, _, canAllocate, _) => name in s.env || !canAllocate || HeadOf(name) !in s.env
    case CmdUnset(_, _, _) => true
    case CmdExport(name, _, _, envOk) => !envOk || name !in NamesOf(DropFound(s.recs, name))
  }

  lemma {:induction false} DropNames(recs: seq<Rec>, name: string)
    ensures NamesOf(DropFound(recs, name)) <= NamesOf(recs)
  {
    hide FirstFound;
    var k, kept := FirstFound(recs, name), DropFound(recs, name);
    forall j | 0 <= j < |kept|
      ensures kept[j].name in NamesOf(recs)
    {
      assert kept[j] == if j < k then recs[j] else recs[j + 1];
    }
  }

  lemma {:induction false} SetNames(recs: seq<Rec>, name: string, value: string)
    ensures NamesOf(SetRecs(recs, name, value, true)) == NamesOf(DropFound(recs, name)) + {HeadOf(name)}
  {
    hide DropFound, RecOf, Line, HeadOf;
    var kept, r := DropFound(recs, name), RecOf(name, value);
    var after := kept + [r];
    assert after[|kept|] == r && forall j :: 0 <= j < |kept| ==> after[j] == kept[j];
    forall n | n in NamesOf(kept)
      ensures n in NamesOf(after)
    {
      var j :| 0 <= j < |kept| && kept[j].name == n;
      assert after[j].name == n;
    }
    assert after[|kept|].name in NamesOf(after);
  }

  /** A command keeps the two stores apart exactly when it is safe. */
  lemma {:induction false} ActApartExactly(s: Stores, c: Command)
    requires Apart(s)
    ensures Apart(Act(s, c)) <==> Safe(s, c)
  {
    hide DropFound, SetRecs, RecOf, Line, HeadOf, NamesOf, GetRecs, ExportValue;
    DropNames(s.recs, c.name);
    if c.CmdSet? {
      SetNames(s.recs, c.name, c.value);
      assert SetRecs(s.recs, c.name, c.value, false) == DropFound(s.recs, c.name) by { FailedSet(s.recs, c.name, c.value); }
    }
  }

  lemma {:induction false} FailedSet(recs: seq<Rec>, name: string, value: string)
    ensures SetRecs(recs, name, value, false) == DropFound(recs, name)
  {
  }

  /** Exporting is unsafe exactly when a second record has the name: only the first one goes. */
  lemma {:induction false} ExportUnsafeExactly(recs: seq<Rec>, name: string)
    requires WellRecs(recs) && '\0' !in name
    ensures name in NamesOf(DropFound(recs, name)) <==> exists j, k :: 0 <= j < k < |recs| && recs[j].name == recs[k].name == name
  {
    hide FirstFound, Finds;
    var first, kept := FirstFound(recs, name), DropFound(recs, name);
    if '=' !in name {
      forall j | 0 <= j < |recs|
        ensures Finds(name, recs[j]) <==> recs[j].name == name
      {
        FindsOwnName(name, recs[j]);
      }
      assert forall j :: 0 <= j < |kept| ==> kept[j] == if j < first then recs[j] else recs[j + 1];
      if name in NamesOf(kept) {
        var j :| 0 <= j < |kept| && kept[j].name == name;
        assert recs[first].name == recs[j + 1].name == name;
      }
      if j, k :| 0 <= j < k < |recs| && recs[j].name == recs[k].name == name {
        assert kept[k - 1].name == name;
      }
    } else {
      assert forall j :: 0 <= j < |recs| ==> GoodRec(recs[j]) && recs[j].name != name;
      DropNames(recs, name);
    }
  }

  /** After every command of a run the stores are apart. */
  ghost predicate AllApart(s: Stores, cs: seq<Command>)
    decreases |cs|
  {
    Apart(s) && (cs != [] ==> AllApart(Act(s, cs[0]), cs[1..]))
  }

  /** Every command of a run is safe when it is given. */
  ghost predicate AllSafe(s: Stores, cs: seq<Command>)
    decreases |cs|
  {
    cs != [] ==> Safe(s, cs[0]) && AllSafe(Act(s, cs[0]), cs[1..])
  }

  /** No name is ever in both stores during a run exactly when each command is safe. */
  lemma {:induction false} RunApartExactly(s: Stores, cs: seq<Command>)
    requires Apart(s)
    ensures AllApart(s, cs) <==> AllSafe(s, cs)
    decreases |cs|
  {
    hide Act, Apart, Safe;
    if cs != [] {
      ActApartExactly(s, cs[0]);
      if Safe(s, cs[0]) {
        RunApartExactly(Act(s, cs[0]), cs[1..]);
      }
    }
  }

  lemma {:induction false} ApartAtEnd(s: Stores, cs: seq<Command>)
    requires AllApart(s, cs)
    ensures Apart(Acts(s, cs))
    decreases |cs|
  {
    hide Act, Apart;
    if cs != [] {
      ApartAtEnd(Act(s, cs[0]), cs[1..]);
    }
  }

  const SET_SET_EXPORT := [CmdSet("a", "x", true, true), CmdSet("a=b", "c", true, true), CmdExport("a", None, true, true)]

  /** `set a x`, `set a=b c`, `export a`: both sets are safe, the export is not. Then `a` is in both
      stores, and `$a` depends on which is searched first. */
  lemma {:induction false} SetSetExport(failed: bool, lastPid: string)
    ensures var s := Stores([], map[]);
            && AllSafe(s, SET_SET_EXPORT[..2]) && !AllSafe(s, SET_SET_EXPORT)
            && Acts(s, SET_SET_EXPORT) == Stores([ABC], map["a" := "x"]) && !Apart(Acts(s, SET_SET_EXPORT))
            && Expand(Acts(s, SET_SET_EXPORT), failed, lastPid, "a") == "b=c"
            && ExpandEnvFirst(Acts(s, SET_SET_EXPORT), failed, lastPid, "a") == "x"
  {
    hide SetRecs, DropFound, GetRecs, FirstFound, Finds, Line, HeadOf;
    var s0, cs := Stores([], map[]), SET_SET_EXPORT;
    EqualSignInName();
    TheyAreFound();
    assert [AX] + [ABC] == [AX, ABC] && [ABC] + [] == [ABC];
    FirstGoes(AX, [ABC], "a");
    FirstGoes(ABC, [], "a");
    var s1 := Act(s0, cs[0]);
    var s2 := Act(s1, cs[1]);
    assert s2 == Stores([AX, ABC], map[]);
    var s3 := Act(s2, cs[2]);
    assert s3 == Stores([ABC], map["a" := "x"]);
    assert [ABC][0].name in NamesOf([ABC]);
    RunOfThree(s0, cs[0], cs[1], cs[2]);
    assert cs == [cs[0], cs[1], cs[2]] && cs[..2] == [cs[0], cs[1]];
  }

  lemma {:induction false} RunOfThree(s: Stores, a: Command, b: Command, c: Command)
    ensures Acts(s, [a, b, c]) == Act(Act(Act(s, a), b), c)
    ensures AllSafe(s, [a, b]) <==> Safe(s, a) && Safe(Act(s, a), b)
    ensures AllSafe(s, [a, b, c]) <==> Safe(s, a) && Safe(Act(s, a), b) && Safe(Act(Act(s, a), b), c)
  {
    hide Act, Safe;
    assert [a, b, c][1..] == [b, c] && [b, c][1..] == [c] && [c][1..] == [] && [a, b][1..] == [b] && [b][1..] == [];
    assert Acts(Act(s, a), [b, c]) == Acts(Act(Act(s, a), b), [c]);
    assert Acts(Act(Act(s, a), b), [c]) == Act(Act(Act(s, a), b), c);
    assert AllSafe(Act(s, a), [b]) <==> Safe(Act(s, a), b);
    assert AllSafe(Act(Act(s, a), b), [c]) <==> Safe(Act(Act(s, a), b), c);
    assert AllSafe(Act(s, a), [b, c]) <==> Safe(Act(s, a), b) && AllSafe(Act(Act(s, a), b), [c]);
  }

  // ----- expansion -----

  /** `nsh_envexpand` searches the variables first. */
  function Expand(s: Stores, failed: bool, lastPid: string, name: string): string
  {
    var found := GetRecs(s.recs, name);
    if name == "?" then (if failed then "1" else "0")
    else if name == "!" then lastPid
    else if found.Some? then found.value
    else if name in s.env then s.env[name]
    else ""
  }

  /** The same with the environment searched first. */
  function ExpandEnvFirst(s: Stores, failed: bool, lastPid: string, name: string): string
  {
    var found := GetRecs(s.recs, name);
    if name == "?" then (if failed then "1" else "0")
    else if name == "!" then lastPid
    else if name in s.env then s.env[name]
    else if found.Some? then found.value
    else ""
  }

  /** The names of the environment have no equal sign. */
  ghost predicate Plain(env: map<string, string>)
  {
    forall n :: n in env ==> '=' !in n
  }

  /** As `setenv` and `unsetenv` of POSIX.1 do, the environment refuses a name with an equal sign. */
  predicate Refused(c: Command)
  {
    '=' in c.name ==> !c.envOk
  }

  /** The search order matters for a name exactly when both stores have it with different values. */
  lemma {:induction false} SearchOrderExactly(s: Stores, failed: bool, lastPid: string, name: string)
    requires WellRecs(s.recs) && Plain(s.env) && '\0' !in name
    ensures Expand(s, failed, lastPid, name) != ExpandEnvFirst(s, failed, lastPid, name) <==>
            name != "?" && name != "!" && name in NamesOf(s.recs) && name in s.env && GetRecs(s.recs, name) != Some(s.env[name])
  {
    hide FirstFound, Finds;
    if name in s.env {
      FoundExactly(s.recs, name);
    }
  }

  lemma {:induction false} FoundExactly(recs: seq<Rec>, name: string)
    requires WellRecs(recs) && GoodName(name)
    ensures GetRecs(recs, name).Some? <==> name in NamesOf(recs)
  {
    hide FirstFound, Finds;
    forall j | 0 <= j < |recs|
      ensures Finds(name, recs[j]) <==> recs[j].name == name
    {
      FindsOwnName(name, recs[j]);
    }
  }

  lemma {:induction false} ActKeeps(s: Stores, c: Command)
    requires WellRecs(s.recs) && Plain(s.env) && Texts(c) && Refused(c)
    ensures WellRecs(Act(s, c).recs) && Plain(Act(s, c).env)
  {
    hide DropFound, SetRecs, WellRecs;
    DropWell(s.recs, c.name);
    if c.CmdSet? {
      SetRecsWell(s.recs, c.name, c.value, c.canAllocate);
    }
  }

  lemma {:induction false} ActsKeep(s: Stores, cs: seq<Command>)
    requires WellRecs(s.recs) && Plain(s.env) && forall k :: 0 <= k < |cs| ==> Texts(cs[k]) && Refused(cs[k])
    ensures WellRecs(Acts(s, cs).recs) && Plain(Acts(s, cs).env)
    decreases |cs|
  {
    hide Act, WellRecs, Plain;
    if cs != [] {
      ActKeeps(s, cs[0]);
      ActsKeep(Act(s, cs[0]), cs[1..]);
    }
  }

  /** After any run of safe commands the search order does not matter for any name. */
  lemma {:induction false} SearchOrderIrrelevant(s: Stores, cs: seq<Command>, failed: bool, lastPid: string, name: string)
    requires Apart(s) && WellRecs(s.recs) && Plain(s.env) && '\0' !in name
    requires AllSafe(s, cs) && forall k :: 0 <= k < |cs| ==> Texts(cs[k]) && Refused(cs[k])
    ensures Expand(Acts(s, cs), failed, lastPid, name) == ExpandEnvFirst(Acts(s, cs), failed, lastPid, name)
  {
    hide Act, Acts, WellRecs, Plain, AllSafe, Expand, ExpandEnvFirst;
    RunApartExactly(s, cs);
    ApartAtEnd(s, cs);
    ActsKeep(s, cs);
    SearchOrderExactly(Acts(s, cs), failed, lastPid, name);
  }

  // ----- names without an equal sign: two maps -----

  datatype Shell = Shell(vars: map<string, string>, env: map<string, string>)

  function ViewOf(s: Stores): Shell
  {
    Shell(MapOf(s.recs), s.env)
  }

  /** What such a command does, seen as maps. */
  function Effect(s: Shell, c: Command): Shell
  {
    match c
    case CmdSet(name, value, canAllocate, envOk) =>
      if name in s.env then
        if envOk then s.(env := s.env[name := value]) else s
      else
        s.(vars := if canAllocate then s.vars[name := value] else s.vars - {name})
    case CmdUnset(name, _, envOk) =>
      Shell(s.vars - {name}, if envOk then s.env - {name} else s.env)
    case CmdExport(name, given, _, envOk) =>
      if !envOk then s
      else
        var value := if given.Some? then given.value else if name in s.vars then s.vars[name] else "";
        Shell(s.vars - {name}, s.env[name := value])
  }

  function Effects(s: Shell, cs: seq<Command>): Shell
    decreases |cs|
  {
    if cs == [] then s else Effects(Effect(s, cs[0]), cs[1..])
  }

  lemma {:induction false} NamesAreKeys(recs: seq<Rec>)
    requires GoodRecs(recs)
    ensures NamesOf(recs) == MapOf(recs).Keys
  {
    hide MapOf;
    MapOfKeys(recs);
  }

  /** On a block with distinct names such a command is its map effect, keeps the names distinct and is safe. */
  lemma {:induction false} GoodAct(s: Stores, c: Command)
    requires GoodRecs(s.recs) && GoodCommand(c)
    ensures GoodRecs(Act(s, c).recs) && ViewOf(Act(s, c)) == Effect(ViewOf(s), c)
    ensures Apart(s) ==> Safe(s, c)
  {
    hide DropFound, SetRecs, MapOf, Without, GetRecs, NamesOf, WellRecs, DistinctNames, HeadOf;
    DropIsWithout(s.recs, c.name);
    WithoutGood(s.recs, c.name);
    WithoutIsRemoval(s.recs, c.name);
    GetIsLookup(s.recs, c.name);
    NamesAreKeys(DropFound(s.recs, c.name));
    if c.CmdSet? {
      SetRecsGood(s.recs, c.name, c.value, c.canAllocate);
    }
  }

  /** Any run of such commands, failures included, is the run on two maps; each command of it is safe. */
  lemma {:induction false} GoodRuns(s: Stores, cs: seq<Command>)
    requires GoodRecs(s.recs) && Apart(s) && forall k :: 0 <= k < |cs| ==> GoodCommand(cs[k])
    ensures GoodRecs(Acts(s, cs).recs) && ViewOf(Acts(s, cs)) == Effects(ViewOf(s), cs)
    ensures AllSafe(s, cs) && AllApart(s, cs) && Apart(Acts(s, cs))
    decreases |cs|
  {
    hide Act, Safe, Apart, GoodRecs, ViewOf, Effect, GoodCommand;
    if cs != [] {
      GoodAct(s, cs[0]);
      ActApartExactly(s, cs[0]);
      GoodRuns(Act(s, cs[0]), cs[1..]);
    }
  }

  /** So no run of such commands makes the search order matter, for any name. */
  lemma {:induction false} GoodSearchOrder(s: Stores, cs: seq<Command>, failed: bool, lastPid: string, name: string)
    requires GoodRecs(s.recs) && Apart(s) && Plain(s.env) && '\0' !in name
    requires forall k :: 0 <= k < |cs| ==> GoodCommand(cs[k])
    ensures Expand(Acts(s, cs), failed, lastPid, name) == ExpandEnvFirst(Acts(s, cs), failed, lastPid, name)
  {
    hide Acts, AllSafe, AllApart, Apart, Expand, ExpandEnvFirst, WellRecs, DistinctNames;
    GoodRuns(s, cs);
    SearchOrderIrrelevant(s, cs, failed, lastPid, name);
  }

  /** A name that has just been exported expands to its value, `set` then changes the exported one, and
      no other name expands to anything else than before. */
  lemma {:induction false} ExportThenSet(s: Stores, name: string, value: string, value': string, other: string, failed: bool, lastPid: string, canAllocate: bool)
    requires GoodRecs(s.recs) && Apart(s) && GoodName(name) && GoodName(other) && name != "?" && name != "!" && other != name
    ensures var s1 := Act(s, CmdExport(name, Some(value), canAllocate, true));
            var s2 := Act(s1, CmdSet(name, value', canAllocate, true));
            && Expand(s1, failed, lastPid, name) == value
            && Expand(s2, failed, lastPid, name) == value' && name in s2.env && name !in NamesOf(s2.recs)
            && Expand(s2, failed, lastPid, other) == Expand(s, failed, lastPid, other)
  {
    hide DropFound, SetRecs, MapOf, GetRecs, NamesOf, WellRecs, DistinctNames, HeadOf;
    var c := CmdExport(name, Some(value), canAllocate, true);
    GoodAct(s, c);
    ActApartExactly(s, c);
    var s1 := Act(s, c);
    NamesAreKeys(s1.recs);
    GetIsLookup(s1.recs, name);
    GetIsLookup(s1.recs, other);
    GetIsLookup(s.recs, other);
  }

  /** What `$name` is after each command, and that no other name is touched. A variable that could not
      be stored is gone; what the environment refuses to change stays as it was there. Exporting without
      a value a name that is no variable, even one exported before, makes it empty. */
  lemma {:induction false} ExpandsAfter(s: Stores, c: Command, other: string, failed: bool, lastPid: string)
    requires GoodRecs(s.recs) && Apart(s) && GoodCommand(c) && c.name != "?" && c.name != "!"
    requires GoodName(other) && other != c.name
    ensures var s' := Act(s, c);
            && Expand(s', failed, lastPid, other) == Expand(s, failed, lastPid, other)
            && var was, now := Expand(s, failed, lastPid, c.name), Expand(s', failed, lastPid, c.name);
               match c
               case CmdSet(name, value, canAllocate, envOk) =>
                 now == if name in s.env then (if envOk then value else was) else if canAllocate then value else ""
               case CmdUnset(name, _, envOk) =>
                 now == (if !envOk && name in s.env then was else "")
               case CmdExport(name, given, _, envOk) =>
                 && now == (if !envOk then was else if given.Some? then given.value else if name in NamesOf(s.recs) then was else "")
                 && (envOk ==> name in s'.env && name !in NamesOf(s'.recs))
  {
    hide DropFound, SetRecs, MapOf, GetRecs, NamesOf, WellRecs, DistinctNames, HeadOf;
    GoodAct(s, c);
    ActApartExactly(s, c);
    var s' := Act(s, c);
    NamesAreKeys(s.recs);
    NamesAreKeys(s'.recs);
    GetIsLookup(s.recs, c.name);
    GetIsLookup(s'.recs, c.name);
    GetIsLookup(s.recs, other);
    GetIsLookup(s'.recs, other);
  }

  // ----- in place -----

  class Session {
    const store: VarStore
    var env: map<string, string>

    ghost predicate Valid()
      reads this, store, store.Block()
    {
      store.Valid()
    }

    ghost function View(): Stores
      reads this, store
    {
      Stores(store.recs, env)
    }

    constructor (env: map<string, string>)
      ensures Valid() && View() == Stores([], env) && Apart(View())
      ensures fresh(store) && store.Block() == {}
    {
      store := new VarStore();
      this.env := env;
    }

    /** `over` is set where a search compares past the terminators. */
    method Set(name: string, value: string, canAllocate: bool, envOk: bool) returns (ok: bool, over: bool)
      requires Valid() && '\0' !in name && '\0' !in value
      modifies this, store, store.Block()
      ensures Valid() && fresh(store.Block() - old(store.Block()))
      ensures View() == Act(old(View()), CmdSet(name, value, canAllocate, envOk))
      ensures ok == if name in old(env) then envOk else canAllocate
      ensures over <==> name !in old(env) && !Sought(old(store.recs), name)
    {
      hide Pack, MapOf, WellRecs, DistinctNames, GetRecs, DropFound, SetRecs, FirstFound, Line, Sought, GoodName;
      if name !in env {
        ok, over := store.SetVar(name, value, canAllocate);
      } else {
        ok, over := envOk, false;
        if envOk {
          env := env[name := value];
        }
      }
    }

    method Unset(name: string, canAllocate: bool, envOk: bool) returns (ok: bool, over: bool)
      requires Valid() && '\0' !in name
      modifies this, store, store.Block()
      ensures Valid() && fresh(store.Block() - old(store.Block()))
      ensures View() == Act(old(View()), CmdUnset(name, canAllocate, envOk))
      ensures ok == (envOk && (canAllocate || GetRecs(old(store.recs), name).None? || store.recs == []))
      ensures over <==> !Sought(old(store.recs), name)
    {
      hide Pack, MapOf, WellRecs, DistinctNames, GetRecs, DropFound, SetRecs, FirstFound, Line, Sought, GoodName;
      ok, over := store.UnsetVar(name, canAllocate);
      if envOk {
        env := env - {name};
      } else {
        ok := false;
      }
    }

    method Export(name: string, given: Option<string>, canAllocate: bool, envOk: bool) returns (ok: bool, over: bool)
      requires Valid() && '\0' !in name
      modifies this, store, store.Block()
      ensures Valid() && fresh(store.Block() - old(store.Block()))
      ensures View() == Act(old(View()), CmdExport(name, given, canAllocate, envOk))
      ensures ok == (envOk && (canAllocate || GetRecs(old(store.recs), name).None? || store.recs == []))
      ensures over <==> (given.None? || envOk) && !Sought(old(store.recs), name)
    {
      hide Pack, MapOf, WellRecs, DistinctNames, GetRecs, DropFound, SetRecs, FirstFound, Line, Sought, GoodName;
      var value := "";
      over := false;
      if given.Some? {
        value := given.value;
      } else {
        var tmp;
        tmp, over := store.GetVar(name);
        if tmp.Some? {
          value := tmp.value;
        }
      }
      if !envOk {
        return false, over;
      }
      env := env[name := value];
      ok, over := store.UnsetVar(name, canAllocate);
    }

    method ExpandName(name: string, failed: bool, lastPid: string) returns (value: string, over: bool)
      requires Valid() && '\0' !in name
      ensures value == Expand(View(), failed, lastPid, name)
      ensures over <==> name != "?" && name != "!" && !Sought(store.recs, name)
    {
      hide Pack, MapOf, WellRecs, DistinctNames, GetRecs, DropFound, SetRecs, FirstFound, Line, Sought, GoodName;
      if name == "?" {
        return if failed then "1" else "0", false;
      } else if name == "!" {
        return lastPid, false;
      }
      var found;
      found, over := store.GetVar(name);
      if found.Some? {
        return found.value, over;
      }
      value := if name in env then env[name] else "";
    }
  }
}

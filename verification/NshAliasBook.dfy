/**
The alias table as a map. `BookOf` reads the table, its lists, marks and flags
and the stack of expansion lists as one map from live names to what an alias
is: its value, the depth of the command that is expanding it, and whether it is
to go when that command ends. `Note` is what each operation does to the map, and
`ApplyIsNote` and `RunsAreNotes` prove that the table does just that.
*/
module NshAliasBook {
  import opened NshBasics
  import opened NshAlias

  /** `holder` is the depth of the command expanding the alias. */
  datatype Alias = Alias(value: Option<string>, holder: Option<nat>, doomed: bool)

  datatype Book = Book(aliases: map<string, Alias>, depth: nat, size: nat)

  // ----- what the operations do to the map -----

  predicate CanDefine(b: Book, name: string, nameOk: bool, valueOk: bool)
  {
    name != "" && valueOk && (name in b.aliases || (nameOk && |b.aliases| < b.size))
  }

  predicate CanExpand(b: Book, name: string)
  {
    name in b.aliases && b.aliases[name].holder.None? && b.aliases[name].value.Some?
  }

  /** An alias that is being expanded stays for now; any other goes at once. */
  function Struck(b: Book, names: set<string>): map<string, Alias>
  {
    map n | n in b.aliases && (n in names ==> b.aliases[n].holder.Some?) ::
      if n in names then b.aliases[n].(doomed := true) else b.aliases[n]
  }

  /** The end of the innermost command: what it was expanding is let go of, or goes. */
  function LetGo(b: Book): map<string, Alias>
    requires b.depth > 0
  {
    map n | n in b.aliases && !(b.aliases[n].holder == Some(b.depth - 1) && b.aliases[n].doomed) ::
      if b.aliases[n].holder == Some(b.depth - 1) then b.aliases[n].(holder := None) else b.aliases[n]
  }

  function Note(b: Book, op: Op): Book
  {
    match op
    case Begin => b.(depth := b.depth + 1)
    case End => if b.depth == 0 then b else b.(aliases := LetGo(b), depth := b.depth - 1)
    case Expand(token) =>
      if b.depth > 0 && CanExpand(b, token)
      then b.(aliases := b.aliases[token := b.aliases[token].(holder := Some(b.depth - 1))])
      else b
    case Define(name, value, nameOk, valueOk) =>
      if CanDefine(b, name, nameOk, valueOk) then
        b.(aliases := b.aliases[name := if name in b.aliases then b.aliases[name].(value := Some(value)) else Alias(Some(value), None, false)])
      else if name != "" && name in b.aliases then
        b.(aliases := Struck(b.(aliases := b.aliases[name := b.aliases[name].(value := None)]), {name}))
      else b
    case Remove(name) => b.(aliases := Struck(b, {name}))
    case RemoveEvery => b.(aliases := Struck(b, b.aliases.Keys))
  }

  function Notes(b: Book, ops: seq<Op>): Book
    decreases |ops|
  {
    if ops == [] then b else Notes(Note(b, ops[0]), ops[1..])
  }

  // ----- the table read as a map -----

  /** The innermost list that holds an entry. */
  function HolderOf(frames: seq<seq<nat>>, i: nat): (r: Option<nat>)
    ensures r.Some? ==> r.value < |frames| && i in frames[r.value]
    ensures r.None? ==> forall d :: 0 <= d < |frames| ==> i !in frames[d]
  {
    if frames == [] then None
    else if i in frames[|frames| - 1] then Some(|frames| - 1)
    else HolderOf(frames[..|frames| - 1], i)
  }

  function NameAt(t: Table, i: nat): string
  {
    if i < |t.tab| && t.tab[i].name.Some? then t.tab[i].name.value else ""
  }

  function AliasAt(s: State, i: nat): Alias
  {
    if i < |s.table.tab| then Alias(s.table.tab[i].value, HolderOf(s.frames, i), s.table.tab[i].rem) else Alias(None, None, false)
  }

  ghost function NamesOf(t: Table): set<string>
  {
    set i | i in t.alist :: NameAt(t, i)
  }

  ghost function BookOf(s: State): Book
    requires InRange(s.table)
  {
    Book(map n | n in NamesOf(s.table) && FindFrom(s.table, n, 0).Some? :: AliasAt(s, FindFrom(s.table, n, 0).value),
         |s.frames|, |s.table.tab|)
  }

  /** The map describes the table: each live entry stands in it under its name, and nothing else does. */
  ghost predicate Describes(aliases: map<string, Alias>, s: State)
  {
    && (forall i :: i in s.table.alist ==> NameAt(s.table, i) in aliases && aliases[NameAt(s.table, i)] == AliasAt(s, i))
    && (forall n :: n in aliases ==> n in NamesOf(s.table))
  }

  lemma {:induction false} FoundByName(t: Table, i: nat, marked: set<nat>)
    requires Owned(t, marked) && i in t.alist
    ensures i < |t.tab| && t.tab[i].name == Some(NameAt(t, i)) && FindFrom(t, NameAt(t, i), 0) == Some(i)
  {
    hide FindFrom;
    var found := FindFrom(t, NameAt(t, i), 0);
    assert forall k :: 0 <= k < |t.alist| ==> t.alist[k] in t.alist;
  }

  lemma {:induction false} BookDescribes(s: State)
    requires Protocol(s)
    ensures Describes(BookOf(s).aliases, s)
  {
    hide Protocol, FindFrom, NameAt, AliasAt, HolderOf, InRange;
    InTable(s);
    forall i | i in s.table.alist
      ensures NameAt(s.table, i) in BookOf(s).aliases && BookOf(s).aliases[NameAt(s.table, i)] == AliasAt(s, i)
    {
      FoundInState(s, i);
    }
  }

  lemma {:induction false} FoundInState(s: State, i: nat)
    requires Protocol(s) && i in s.table.alist
    ensures InRange(s.table) && FindFrom(s.table, NameAt(s.table, i), 0) == Some(i)
  {
    hide FindFrom, NameAt, Owned, Flat;
    InTable(s);
    FoundByName(s.table, i, Members(Flat(s.frames)));
  }

  lemma {:induction false} InTable(s: State)
    requires Protocol(s)
    ensures InRange(s.table)
  {
  }

  /** There is one such map. */
  lemma {:induction false} OneBook(s: State, a: map<string, Alias>, b: map<string, Alias>)
    requires Describes(a, s) && Describes(b, s)
    ensures a == b
  {
    hide NameAt, AliasAt;
    forall n | n in a || n in b
      ensures n in a && n in b && a[n] == b[n]
    {
      var i :| i in s.table.alist && NameAt(s.table, i) == n;
    }
  }

  lemma {:induction false} BookIs(s: State, aliases: map<string, Alias>)
    requires Protocol(s) && Describes(aliases, s)
    ensures InRange(s.table) && BookOf(s).aliases == aliases
  {
    hide Describes, BookOf, Protocol;
    InTable(s);
    BookDescribes(s);
    OneBook(s, BookOf(s).aliases, aliases);
  }

  /** A name found in the table stands in the book, and the other way round. */
  lemma {:induction false} FoundIsListed(s: State, name: string)
    requires Protocol(s)
    ensures InRange(s.table) && (FindFrom(s.table, name, 0).Some? <==> name in BookOf(s).aliases)
    ensures FindFrom(s.table, name, 0).Some? ==>
              var i := FindFrom(s.table, name, 0).value;
              i in s.table.alist && i < |s.table.tab| && NameAt(s.table, i) == name && BookOf(s).aliases[name] == AliasAt(s, i)
  {
    hide Owned, FindFrom, AliasAt, Flat;
    InTable(s);
    var found := FindFrom(s.table, name, 0);
    if found.Some? {
      ListsNoDup(s.table, Members(Flat(s.frames)));
      FoundByName(s.table, found.value, Members(Flat(s.frames)));
      assert NameAt(s.table, found.value) == name;
    }
  }

  // ----- marks and holders -----

  lemma {:induction false} HolderIsMark(frames: seq<seq<nat>>, i: nat)
    ensures HolderOf(frames, i).Some? <==> i in Flat(frames)
    decreases |frames|
  {
    if frames != [] {
      HolderIsMark(frames[..|frames| - 1], i);
    }
  }

  lemma {:induction false} HeldIsMarked(s: State, i: nat)
    requires Protocol(s) && i < |s.table.tab|
    ensures s.table.tab[i].exp <==> HolderOf(s.frames, i).Some?
  {
    HolderIsMark(s.frames, i);
    assert i in Members(Flat(s.frames)) <==> i in Flat(s.frames);
  }

  // ----- deleting -----

  lemma {:induction false} NamesDiffer(s: State)
    requires Protocol(s)
    ensures forall i, k :: i in s.table.alist && k in s.table.alist && i != k ==> NameAt(s.table, i) != NameAt(s.table, k)
    ensures forall i :: i in s.table.alist ==> i < |s.table.tab| && s.table.tab[i].name.Some?
  {
    hide Flat, Members;
  }

  /** What deleting an entry does to each live entry. */
  lemma {:induction false} DeletePoints(s: State, i: nat)
    requires Protocol(s) && i in s.table.alist && i < |s.table.tab|
    ensures var s' := s.(table := Delete(s.table, i));
            forall k :: k in s'.table.alist <==> k in s.table.alist && (k == i ==> HolderOf(s.frames, i).Some?)
    ensures var s' := s.(table := Delete(s.table, i));
            forall k :: k in s'.table.alist ==>
              NameAt(s'.table, k) == NameAt(s.table, k) && AliasAt(s', k) == if k == i then AliasAt(s, k).(doomed := true) else AliasAt(s, k)
  {
    hide HolderOf, Flat, Take, FindFrom, Owned;
    HeldIsMarked(s, i);
    ListsNoDup(s.table, Members(Flat(s.frames)));
    TakeMembers(s.table.alist, i);
  }

  lemma {:induction false} DeleteStrikes(s: State, i: nat, b: Book)
    requires Protocol(s) && i in s.table.alist && i < |s.table.tab| && Describes(b.aliases, s)
    ensures Describes(Struck(b, {NameAt(s.table, i)}), s.(table := Delete(s.table, i)))
  {
    hide HolderOf, Protocol, Delete, NameAt, AliasAt;
    NamesDiffer(s);
    DeletePoints(s, i);
    HolderAt(s, i);
    var name, s' := NameAt(s.table, i), s.(table := Delete(s.table, i));
    forall n | n in Struck(b, {name})
      ensures n in NamesOf(s'.table)
    {
      var k :| k in s.table.alist && NameAt(s.table, k) == n;
      assert k in s'.table.alist && NameAt(s'.table, k) == n;
    }
  }

  lemma {:induction false} HolderAt(s: State, i: nat)
    requires i < |s.table.tab|
    ensures AliasAt(s, i).holder == HolderOf(s.frames, i) && AliasAt(s, i).value == s.table.tab[i].value && AliasAt(s, i).doomed == s.table.tab[i].rem
  {
  }

  ghost function ListNames(t: Table, list: seq<nat>): set<string>
  {
    set i | i in list :: NameAt(t, i)
  }

  lemma {:induction false} StruckTwice(b: Book, x: set<string>, y: set<string>)
    ensures Struck(b.(aliases := Struck(b, x)), y) == Struck(b, x + y)
    ensures Struck(b, {}) == b.aliases
  {
  }

  lemma {:induction false} DeleteAllStrikes(s: State, list: seq<nat>, b: Book)
    requires Protocol(s) && NoDup(list) && Describes(b.aliases, s)
    requires forall i :: i in list ==> i in s.table.alist && i < |s.table.tab|
    ensures Describes(Struck(b, ListNames(s.table, list)), s.(table := DeleteAll(s.table, list)))
    decreases |list|
  {
    hide Describes, Struck, HolderOf, Delete, Owned, Flat, NameAt, AliasAt;
    if list == [] {
      assert ListNames(s.table, list) == {};
      StruckTwice(b, {}, {});
    } else {
      var i, rest := list[0], list[1..];
      assert i in list && i !in rest && forall k :: k in rest ==> k in list;
      var name, s1 := NameAt(s.table, i), s.(table := Delete(s.table, i));
      var b1 := b.(aliases := Struck(b, {name}));
      DeleteOwned(s.table, i, Members(Flat(s.frames)));
      DeletePoints(s, i);
      DeleteStrikes(s, i, b);
      DeleteAllStrikes(s1, rest, b1);
      StruckTwice(b, {name}, ListNames(s1.table, rest));
      assert list == [i] + rest;
      assert {name} + ListNames(s1.table, rest) == ListNames(s.table, list);
    }
  }

  lemma {:induction false} RemoveEveryNotes(s: State, b: Book)
    requires Protocol(s) && Describes(b.aliases, s)
    ensures Describes(Note(b, RemoveEvery).aliases, Apply(s, RemoveEvery))
  {
    hide DeleteAll, HolderOf, Delete, Owned, Flat, NameAt, AliasAt, Struck, FindFrom;
    ListsNoDup(s.table, Members(Flat(s.frames)));
    NamesDiffer(s);
    DeleteAllStrikes(s, s.table.alist, b);
    assert ListNames(s.table, s.table.alist) == b.aliases.Keys;
  }

  lemma {:induction false} RemoveNotes(s: State, name: string, b: Book)
    requires Protocol(s) && Describes(b.aliases, s)
    ensures Describes(Note(b, Remove(name)).aliases, Apply(s, Remove(name)))
  {
    hide HolderOf, Delete, Owned, Flat, AliasAt, FindFrom, Describes;
    FoundIsListed(s, name);
    BookIs(s, b.aliases);
    var found := FindFrom(s.table, name, 0);
    if found.Some? {
      DeleteStrikes(s, found.value, b);
    } else {
      assert Struck(b, {name}) == b.aliases;
    }
  }

  // ----- defining -----

  lemma {:induction false} ValueOwned(t: Table, i: nat, value: Option<string>, marked: set<nat>)
    requires Owned(t, marked) && i in t.alist && i < |t.tab|
    ensures Owned(t.(tab := t.tab[i := t.tab[i].(value := value)]), marked)
  {
    assert i !in t.afree;
  }

  lemma {:induction false} ValueNotes(s: State, i: nat, value: Option<string>, b: Book)
    requires Protocol(s) && i in s.table.alist && i < |s.table.tab| && Describes(b.aliases, s)
    ensures NameAt(s.table, i) in b.aliases
    ensures var name := NameAt(s.table, i);
            Describes(b.aliases[name := b.aliases[name].(value := value)],
                      s.(table := s.table.(tab := s.table.tab[i := s.table.tab[i].(value := value)])))
  {
    hide HolderOf, Protocol, Describes;
    var s' := s.(table := s.table.(tab := s.table.tab[i := s.table.tab[i].(value := value)]));
    OneChanged(s, s', i, AliasAt(s, i).(value := value), b.aliases);
  }

  /** The same live names, and one alias changed. */
  lemma {:induction false} OneChanged(s: State, s': State, i: nat, a: Alias, aliases: map<string, Alias>)
    requires Protocol(s) && Describes(aliases, s) && i in s.table.alist && s'.table.alist == s.table.alist
    requires forall k :: k in s.table.alist ==> NameAt(s'.table, k) == NameAt(s.table, k)
    requires forall k :: k in s.table.alist ==> AliasAt(s', k) == if k == i then a else AliasAt(s, k)
    ensures NameAt(s.table, i) in aliases && aliases[NameAt(s.table, i)] == AliasAt(s, i)
    ensures Describes(aliases[NameAt(s.table, i) := a], s')
  {
    hide HolderOf, Protocol, NameAt, AliasAt;
    NamesDiffer(s);
    assert NamesOf(s'.table) == NamesOf(s.table);
  }

  lemma {:induction false} FreshNotes(s: State, name: string, value: string, b: Book)
    requires Protocol(s) && s.table.afree != [] && name !in b.aliases && Describes(b.aliases, s)
    ensures var i := s.table.afree[0];
            i < |s.table.tab| &&
            Describes(b.aliases[name := Alias(Some(value), None, false)],
                      s.(table := Table(s.table.tab[i := Entry(Some(name), Some(value), false, false)], s.table.alist + [i], s.table.afree[1..])))
  {
    hide HolderOf, Describes, Protocol;
    var i := s.table.afree[0];
    FirstIsFree(s);
    HeldIsMarked(s, i);
    NamesDiffer(s);
    var s' := s.(table := Table(s.table.tab[i := Entry(Some(name), Some(value), false, false)], s.table.alist + [i], s.table.afree[1..]));
    OneMore(s, s', i, name, Alias(Some(value), None, false), b.aliases);
  }

  lemma {:induction false} FirstIsFree(s: State)
    requires Protocol(s) && s.table.afree != []
    ensures var i := s.table.afree[0]; i < |s.table.tab| && i !in s.table.alist && !s.table.tab[i].exp
  {
    hide Flat, Members;
    assert s.table.afree[0] in s.table.afree;
  }

  /** The same live names, and one more. */
  lemma {:induction false} OneMore(s: State, s': State, i: nat, name: string, a: Alias, aliases: map<string, Alias>)
    requires Describes(aliases, s) && name !in aliases && s'.table.alist == s.table.alist + [i]
    requires forall k :: k in s.table.alist ==> NameAt(s'.table, k) == NameAt(s.table, k) && AliasAt(s', k) == AliasAt(s, k)
    requires NameAt(s'.table, i) == name && AliasAt(s', i) == a
    ensures Describes(aliases[name := a], s')
  {
    hide HolderOf, NameAt, AliasAt;
    assert forall k :: k in s'.table.alist <==> k in s.table.alist || k == i;
    assert NamesOf(s'.table) == NamesOf(s.table) + {name};
  }

  // ----- room -----

  lemma {:induction false} NoDupSize(s: seq<nat>)
    requires NoDup(s)
    ensures |Members(s)| == |s|
    decreases |s|
  {
    if s != [] {
      var init, last := s[..|s| - 1], s[|s| - 1];
      NoDupSize(init);
      assert s == init + [last];
      assert last !in init;
      assert Members(s) == Members(init) + {last};
    }
  }

  lemma {:induction false} NamesSize(t: Table, list: seq<nat>)
    requires NoDup(list)
    requires forall i, k :: i in list && k in list && i != k ==> NameAt(t, i) != NameAt(t, k)
    ensures |ListNames(t, list)| == |list|
    decreases |list|
  {
    hide NameAt;
    if list != [] {
      var init, last := list[..|list| - 1], list[|list| - 1];
      assert list == init + [last] && last !in init && forall i :: i in init ==> i in list;
      NamesSize(t, init);
      assert ListNames(t, list) == ListNames(t, init) + {NameAt(t, last)};
    }
  }

  function UpTo(n: nat): (r: set<nat>)
    ensures |r| == n && forall i: nat :: i in r <==> i < n
  {
    if n == 0 then {} else UpTo(n - 1) + {n - 1}
  }

  /** A free entry is left exactly when the map is smaller than the table. */
  lemma {:induction false} RoomExactly(s: State, aliases: map<string, Alias>)
    requires Protocol(s) && Describes(aliases, s)
    ensures s.table.afree != [] <==> |aliases| < |s.table.tab|
  {
    hide NameAt, AliasAt, Flat, Owned;
    NamesDiffer(s);
    var t := s.table;
    ListsNoDup(t, Members(Flat(s.frames)));
    NamesSize(t, t.alist);
    assert aliases.Keys == ListNames(t, t.alist);
    ListsFill(t, Members(Flat(s.frames)));
  }

  lemma {:induction false} ListsFill(t: Table, marked: set<nat>)
    requires Owned(t, marked)
    ensures |t.alist| + |t.afree| == |t.tab|
  {
    LiveOrFree(t, marked);
    NoDupSize(t.alist);
    NoDupSize(t.afree);
    hide Owned;
    var live, free, all := Members(t.alist), Members(t.afree), UpTo(|t.tab|);
    assert live + free == all;
    assert live !! free;
  }

  lemma {:induction false} DefineNotes(s: State, name: string, value: string, nameOk: bool, valueOk: bool, b: Book)
    requires Protocol(s) && Describes(b.aliases, s) && b.size == |s.table.tab|
    ensures Describes(Note(b, Define(name, value, nameOk, valueOk)).aliases, Apply(s, Define(name, value, nameOk, valueOk)))
    ensures Save(s.table, name, value, nameOk, valueOk).1 <==> CanDefine(b, name, nameOk, valueOk)
  {
    hide HolderOf, Delete, Owned, Flat, AliasAt, FindFrom, Describes, Struck;
    FoundIsListed(s, name);
    BookIs(s, b.aliases);
    RoomExactly(s, b.aliases);
    if name != "" {
      var found, t := FindFrom(s.table, name, 0), s.table;
      if found.Some? {
        var i, v := found.value, if valueOk then Some(value) else None;
        ValueOwned(t, i, v, Members(Flat(s.frames)));
        ValueNotes(s, i, v, b);
        if !valueOk {
          DeleteStrikes(s.(table := t.(tab := t.tab[i := t.tab[i].(value := None)])), i, b.(aliases := b.aliases[name := b.aliases[name].(value := None)]));
        }
      } else if t.afree != [] {
        DefineFresh(s, name, value, nameOk, valueOk, b);
      }
    }
  }

  lemma {:induction false} DefineFresh(s: State, name: string, value: string, nameOk: bool, valueOk: bool, b: Book)
    requires Protocol(s) && Describes(b.aliases, s) && name != "" && FindFrom(s.table, name, 0).None? && s.table.afree != [] && name !in b.aliases
    ensures var (t', ok) := Save(s.table, name, value, nameOk, valueOk);
            && ok == (nameOk && valueOk)
            && if ok then Describes(b.aliases[name := Alias(Some(value), None, false)], s.(table := t')) else t' == s.table
  {
    hide HolderOf, Delete, Flat, AliasAt, FindFrom, Describes;
    var t, i := s.table, s.table.afree[0];
    assert i in t.afree && t.tab[i] == CLEAN;
    FreshNotes(s, name, value, b);
    FailedFreshSave(t, t.tab[i].(name := if nameOk then Some(name) else None, value := if valueOk then Some(value) else None), Members(Flat(s.frames)));
  }

  // ----- commands and expansion -----

  lemma {:induction false} BeginNotes(s: State, b: Book)
    requires Protocol(s) && Describes(b.aliases, s)
    ensures Describes(b.aliases, Apply(s, Begin))
  {
    hide Owned, Flat;
    var s' := Apply(s, Begin);
    forall i | i in s.table.alist
      ensures AliasAt(s', i) == AliasAt(s, i)
    {
      assert s'.frames[..|s.frames|] == s.frames;
    }
  }

  lemma {:induction false} HeldByOther(frames: seq<seq<nat>>, i: nat, k: nat)
    requires frames != []
    ensures var d := |frames| - 1;
            HolderOf(frames[d := frames[d] + [i]], k) == if k == i then Some(d) else HolderOf(frames, k)
  {
    var d := |frames| - 1;
    assert frames[d := frames[d] + [i]][..d] == frames[..d];
  }

  /** An alias can be expanded exactly when the map has it, with a value, and no command holds it. */
  lemma {:induction false} ExpandableExactly(s: State, token: string, b: Book)
    requires Protocol(s) && Describes(b.aliases, s)
    ensures InRange(s.table) && (Expandable(s.table, token).Some? <==> CanExpand(b, token))
    ensures Expandable(s.table, token).Some? ==>
              var i := Expandable(s.table, token).value;
              i in s.table.alist && i < |s.table.tab| && NameAt(s.table, i) == token && s.table.tab[i].value == b.aliases[token].value
  {
    hide Describes, Protocol, FindFrom, HolderOf, NameAt, BookOf;
    FoundIsListed(s, token);
    BookIs(s, b.aliases);
    var found := FindFrom(s.table, token, 0);
    if found.Some? {
      HeldIsMarked(s, found.value);
    }
  }

  lemma {:induction false} ExpandNotes(s: State, token: string, b: Book)
    requires Protocol(s) && Describes(b.aliases, s) && b.depth == |s.frames|
    ensures Describes(Note(b, Expand(token)).aliases, Apply(s, Expand(token)))
  {
    hide Describes, Protocol, FindFrom, HolderOf, NameAt, BookOf, Expandable, CanExpand, Hold;
    ExpandableExactly(s, token, b);
    if Expandable(s.table, token).Some? && s.frames != [] {
      CapacityNeverFails(s, token);
      HoldDescribes(s, Expandable(s.table, token).value, b);
    }
  }

  lemma {:induction false} HoldDescribes(s: State, i: nat, b: Book)
    requires Protocol(s) && Describes(b.aliases, s) && s.frames != [] && i in s.table.alist && i < |s.table.tab|
    requires |s.frames[|s.frames| - 1]| < |s.table.tab|
    ensures var name := NameAt(s.table, i);
            name in b.aliases && Describes(b.aliases[name := b.aliases[name].(holder := Some(|s.frames| - 1))], Hold(s, i))
  {
    hide Protocol, HolderOf, Describes;
    var s' := Hold(s, i);
    forall k | k in s.table.alist
      ensures HolderOf(s'.frames, k) == if k == i then Some(|s.frames| - 1) else HolderOf(s.frames, k)
    {
      HeldByOther(s.frames, i, k);
    }
    OneChanged(s, s', i, AliasAt(s, i).(holder := Some(|s.frames| - 1)), b.aliases);
  }

  /** Without the innermost list, what it held is held by no list. */
  lemma {:induction false} HolderBelow(s: State, i: nat)
    requires Protocol(s) && s.frames != []
    ensures var d := |s.frames| - 1;
            && (i in s.frames[d] <==> HolderOf(s.frames, i) == Some(d))
            && HolderOf(s.frames[..d], i) == if i in s.frames[d] then None else HolderOf(s.frames, i)
  {
    hide Owned;
    TopIsMarked(s);
    HolderIsMark(s.frames[..|s.frames| - 1], i);
  }

  /** What the end of a command does to each live entry. */
  lemma {:induction false} EndPoints(s: State)
    requires Protocol(s) && s.frames != []
    ensures var s', d := Apply(s, End), |s.frames| - 1;
            forall k :: k in s'.table.alist <==> k in s.table.alist && !(HolderOf(s.frames, k) == Some(d) && AliasAt(s, k).doomed)
    ensures var s', d := Apply(s, End), |s.frames| - 1;
            forall k :: k in s'.table.alist ==>
              && NameAt(s'.table, k) == NameAt(s.table, k)
              && AliasAt(s', k) == if HolderOf(s.frames, k) == Some(d) then AliasAt(s, k).(holder := None) else AliasAt(s, k)
  {
    hide Flat, FindFrom, ReleaseAll, HolderOf, Owned;
    TopIsMarked(s);
    MarkedByTop(s);
    var top, marked, s' := s.frames[|s.frames| - 1], Members(Flat(s.frames)), Apply(s, End);
    ReleaseAllOwned(s.table, top, marked);
    LiveOrFree(s.table, marked);
    LiveOrFree(s'.table, marked - Members(top));
    forall k: nat
      ensures k in s'.table.alist <==> k in s.table.alist && !(HolderOf(s.frames, k) == Some(|s.frames| - 1) && AliasAt(s, k).doomed)
      ensures k in s'.table.alist ==>
                && NameAt(s'.table, k) == NameAt(s.table, k)
                && AliasAt(s', k) == if HolderOf(s.frames, k) == Some(|s.frames| - 1) then AliasAt(s, k).(holder := None) else AliasAt(s, k)
    {
      HolderBelow(s, k);
    }
  }

  lemma {:induction false} LiveOrFree(t: Table, marked: set<nat>)
    requires Owned(t, marked)
    ensures forall i :: i in t.alist || i in t.afree ==> i < |t.tab|
    ensures forall i :: 0 <= i < |t.tab| ==> (i in t.alist <==> i !in t.afree)
    ensures forall i :: i in marked ==> i in t.alist
  {
  }

  lemma {:induction false} EndNotes(s: State, b: Book)
    requires Protocol(s) && s.frames != [] && Describes(b.aliases, s) && b.depth == |s.frames|
    ensures Describes(LetGo(b), Apply(s, End))
  {
    hide Protocol, Apply, HolderOf, NameAt, AliasAt;
    NamesDiffer(s);
    EndPoints(s);
    HoldersAre(s);
    var s' := Apply(s, End);
    forall n | n in LetGo(b)
      ensures n in NamesOf(s'.table)
    {
      var k :| k in s.table.alist && NameAt(s.table, k) == n;
      assert k in s'.table.alist && NameAt(s'.table, k) == n;
    }
  }

  lemma {:induction false} HoldersAre(s: State)
    requires Protocol(s)
    ensures forall i :: i in s.table.alist ==> AliasAt(s, i).holder == HolderOf(s.frames, i)
  {
    hide HolderOf, Flat;
  }

  // ----- the table does what the map does -----

  lemma {:induction false} ApplyIsNote(s: State, op: Op)
    requires Protocol(s)
    ensures InRange(s.table) && Protocol(Apply(s, op)) && InRange(Apply(s, op).table)
    ensures BookOf(Apply(s, op)) == Note(BookOf(s), op)
  {
    hide Protocol, Describes, HolderOf, FindFrom, LetGo, Struck, Save, Delete, DeleteAll, ReleaseAll, CanExpand, CanDefine, NamesOf;
    InTable(s);
    ApplyKeeps(s, op);
    InTable(Apply(s, op));
    BookDescribes(s);
    var b := BookOf(s);
    match op
    case Begin =>
      BeginNotes(s, b);
      BookIs(Apply(s, op), b.aliases);
    case End =>
      if s.frames != [] {
        EndNotes(s, b);
        BookIs(Apply(s, op), LetGo(b));
      }
    case Expand(token) =>
      ExpandNotes(s, token, b);
      BookIs(Apply(s, op), Note(b, op).aliases);
    case Define(name, value, nameOk, valueOk) =>
      DefineNotes(s, name, value, nameOk, valueOk, b);
      BookIs(Apply(s, op), Note(b, op).aliases);
    case Remove(name) =>
      RemoveNotes(s, name, b);
      BookIs(Apply(s, op), Note(b, op).aliases);
    case RemoveEvery =>
      RemoveEveryNotes(s, b);
      BookIs(Apply(s, op), Note(b, op).aliases);
  }

  /** Any run on the table is the run on the map. */
  lemma {:induction false} RunsAreNotes(s: State, ops: seq<Op>)
    requires Protocol(s)
    ensures InRange(s.table) && InRange(Runs(s, ops).table) && BookOf(Runs(s, ops)) == Notes(BookOf(s), ops)
    decreases |ops|
  {
    hide Protocol, Apply, Note, BookOf;
    InTable(s);
    if ops != [] {
      ApplyIsNote(s, ops[0]);
      RunsAreNotes(Apply(s, ops[0]), ops[1..]);
    }
  }

  /** The fresh table has no names and room for as many as it has entries. */
  lemma {:induction false} InitIsEmpty(n: nat)
    ensures InRange(Init(n)) && BookOf(State(Init(n), [])) == Book(map[], 0, n)
  {
    assert NamesOf(Init(n)) == {};
  }

  // ----- what a name stands for -----

  /** What the table has for a name, whether or not it is being expanded. */
  function Lookup(t: Table, name: string): Option<string>
    requires InRange(t)
  {
    var found := FindFrom(t, name, 0);
    if found.Some? then (assert found.value in t.alist; t.tab[found.value].value) else None
  }

  lemma {:induction false} LookupListed(s: State, name: string)
    requires Protocol(s)
    ensures InRange(s.table)
    ensures Lookup(s.table, name) == if name in BookOf(s).aliases then BookOf(s).aliases[name].value else None
  {
    hide BookOf, FindFrom, Protocol, HolderOf;
    InTable(s);
    FoundIsListed(s, name);
  }

  /** `unalias` of an alias that no command is expanding: the name is unknown afterwards. One that is
      being expanded stays until then. All other names stand for what they stood for. */
  lemma {:induction false} UnaliasRemoves(s: State, name: string, other: string)
    requires Protocol(s) && other != name
    ensures InRange(s.table) && InRange(Apply(s, Remove(name)).table)
    ensures FindFrom(s.table, name, 0).Some? && !s.table.tab[FindFrom(s.table, name, 0).value].exp ==>
              FindFrom(Apply(s, Remove(name)).table, name, 0).None?
    ensures FindFrom(s.table, name, 0).Some? && s.table.tab[FindFrom(s.table, name, 0).value].exp ==>
              Lookup(Apply(s, Remove(name)).table, name) == Lookup(s.table, name)
    ensures Lookup(Apply(s, Remove(name)).table, other) == Lookup(s.table, other)
  {
    hide BookOf, FindFrom, Protocol, HolderOf, Apply;
    ApplyIsNote(s, Remove(name));
    var s' := Apply(s, Remove(name));
    FoundIsListed(s, name);
    FoundIsListed(s', name);
    LookupListed(s, name);
    LookupListed(s, other);
    LookupListed(s', name);
    LookupListed(s', other);
    var found := FindFrom(s.table, name, 0);
    if found.Some? {
      HeldIsMarked(s, found.value);
    }
  }

  /** `alias` that succeeds: the name stands for the value. If it fails, an empty name being refused at
      once, the name stands for nothing. All other names stand for what they stood for. */
  lemma {:induction false} AliasDefines(s: State, name: string, value: string, nameOk: bool, valueOk: bool, other: string)
    requires Protocol(s) && other != name
    ensures var s' := Apply(s, Define(name, value, nameOk, valueOk));
            && InRange(s.table) && InRange(s'.table)
            && Lookup(s'.table, name) == (if Save(s.table, name, value, nameOk, valueOk).1 then Some(value) else if name == "" then Lookup(s.table, name) else None)
            && Lookup(s'.table, other) == Lookup(s.table, other)
  {
    hide BookOf, FindFrom, Protocol, HolderOf, Apply, Save;
    var op := Define(name, value, nameOk, valueOk);
    ApplyIsNote(s, op);
    BookDescribes(s);
    SizeOf(s);
    DefineNotes(s, name, value, nameOk, valueOk, BookOf(s));
    LookupListed(s, name);
    LookupListed(s, other);
    LookupListed(Apply(s, op), name);
    LookupListed(Apply(s, op), other);
  }

  lemma {:induction false} SizeOf(s: State)
    requires InRange(s.table)
    ensures BookOf(s).size == |s.table.tab| && BookOf(s).depth == |s.frames|
  {
  }
}

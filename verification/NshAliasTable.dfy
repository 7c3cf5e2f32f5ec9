/**
The alias table in place: an array of entries, two lists threaded through it,
and the expansion lists of the commands being parsed. Each method is proved
against the operation of `NshAlias` it performs.
*/
module NshAliasTable {
  import opened NshBasics
  import opened NshAlias
  import opened NshAliasBook

  class AliasTable {
    const atab: array<Entry>
    var alist: seq<nat>
    var afreelist: seq<nat>
    var active: seq<seq<nat>>

    ghost function View(): State
      reads this, atab
    {
      State(Table(atab[..], alist, afreelist), active)
    }

    ghost predicate Valid()
      reads this, atab
    {
      Protocol(View())
    }

    /** The table read as a map from live names. */
    ghost function Names(): Book
      requires Valid()
      reads this, atab
    {
      InTable(View());
      BookOf(View())
    }

    constructor (n: nat)
      ensures Valid() && View() == State(Init(n), [])
      ensures fresh(atab)
    {
      atab := new Entry[n](_ => CLEAN);
      alist, active := [], [];
      new;
      afreelist := [];
      var i := 0;
      while i < n
        invariant 0 <= i <= n
        invariant |afreelist| == i && forall k :: 0 <= k < i ==> afreelist[k] == k
        invariant alist == [] && active == [] && forall k :: 0 <= k < n ==> atab[k] == CLEAN
        modifies this`afreelist
      {
        afreelist := afreelist + [i];
        i := i + 1;
      }
      assert View() == State(Init(n), []);
      InitProtocol(n);
    }

    method Find(name: string) returns (r: Option<nat>)
      requires InRange(View().table)
      ensures r == FindFrom(View().table, name, 0)
    {
      var k := 0;
      while k < |alist|
        invariant 0 <= k <= |alist|
        invariant FindFrom(View().table, name, k) == FindFrom(View().table, name, 0)
      {
        if atab[alist[k]].name == Some(name) {
          return Some(alist[k]);
        }
        k := k + 1;
      }
      r := None;
    }

    method DeleteEntry(i: nat)
      requires i < atab.Length
      modifies this`alist, this`afreelist, atab
      ensures View().table == Delete(old(View().table), i)
    {
      if atab[i].exp {
        atab[i] := atab[i].(rem := true);
      } else {
        atab[i] := CLEAN;
        alist := Take(alist, i);
        afreelist := [i] + afreelist;
      }
    }

    method SaveAlias(name: string, value: string, nameOk: bool, valueOk: bool) returns (ok: bool)
      requires Valid()
      modifies this`alist, this`afreelist, atab
      ensures Valid() && active == old(active)
      ensures (View().table, ok) == Save(old(View().table), name, value, nameOk, valueOk)
      ensures Names() == Note(old(Names()), Define(name, value, nameOk, valueOk))
      ensures ok == CanDefine(old(Names()), name, nameOk, valueOk)
    {
      hide Protocol, FindFrom, BookOf, Note, CanDefine;
      SaveNotes(View(), name, value, nameOk, valueOk);
      RangeOf(View());
      if name == "" {
        return false;
      }
      var found := Find(name);
      if found.Some? {
        atab[found.value] := atab[found.value].(value := if valueOk then Some(value) else None);
        ok := valueOk;
        if !ok {
          DeleteEntry(found.value);
        }
      } else if afreelist == [] {
        ok := false;
      } else {
        var i := afreelist[0];
        afreelist := afreelist[1..];
        atab[i] := atab[i].(name := if nameOk then Some(name) else None, value := if valueOk then Some(value) else None);
        alist := alist + [i];
        ok := nameOk && valueOk;
        if !ok {
          DeleteEntry(i);
        }
      }
    }

    method RemoveAlias(name: string) returns (found: bool)
      requires Valid()
      modifies this`alist, this`afreelist, atab
      ensures Valid() && View() == Apply(old(View()), Remove(name))
      ensures found == FindFrom(old(View().table), name, 0).Some?
      ensures Names() == Note(old(Names()), Remove(name)) && found == (name in old(Names()).aliases)
      ensures found && old(Names()).aliases[name].holder.None? ==> name !in Names().aliases
    {
      hide Protocol, FindFrom, BookOf;
      ApplyIsNote(View(), Remove(name));
      FoundIsListed(View(), name);
      RangeOf(View());
      var i := Find(name);
      found := i.Some?;
      if found {
        DeleteEntry(i.value);
      }
    }

    method RemoveAllAliases()
      requires Valid()
      modifies this`alist, this`afreelist, atab
      ensures Valid() && View() == Apply(old(View()), RemoveEvery)
      ensures Names() == Note(old(Names()), RemoveEvery)
      ensures forall n :: n in Names().aliases ==> n in old(Names()).aliases && old(Names()).aliases[n].holder.Some?
    {
      hide Protocol, BookOf;
      ApplyIsNote(View(), RemoveEvery);
      RangeOf(View());
      var list := alist;
      var k := 0;
      while k < |list|
        invariant 0 <= k <= |list| && active == old(active)
        invariant forall j :: 0 <= j < |list| ==> list[j] < atab.Length
        invariant DeleteAll(View().table, list[k..]) == DeleteAll(old(View().table), list)
      {
        assert list[k..][1..] == list[k + 1..];
        DeleteEntry(list[k]);
        k := k + 1;
      }
    }

    method BeginCommand()
      requires Valid()
      modifies this`active
      ensures Valid() && View() == Apply(old(View()), Begin)
      ensures Names() == Note(old(Names()), Begin)
    {
      hide Protocol, BookOf;
      ApplyIsNote(View(), Begin);
      active := active + [[]];
    }

    /** Look a word up and, if it is an alias that may be expanded, take hold of it. */
    method ExpandAlias(token: string) returns (value: Option<string>)
      requires Valid() && active != []
      modifies this`active, atab
      ensures Valid() && View() == Apply(old(View()), Expand(token))
      ensures value == var i := Expandable(old(View().table), token); if i.Some? then old(atab[i.value].value) else None
      ensures Names() == Note(old(Names()), Expand(token))
      ensures value == if CanExpand(old(Names()), token) then old(Names()).aliases[token].value else None
    {
      hide Protocol, FindFrom, BookOf, Note, CanExpand;
      ExpandableListed(View(), token);
      ApplyIsNote(View(), Expand(token));
      RangeOf(View());
      var found := Find(token);
      if found.None? || atab[found.value].exp || atab[found.value].value.None? {
        return None;
      }
      var i := found.value;
      value := atab[i].value;
      var top := active[|active| - 1];
      if |top| < atab.Length {
        atab[i] := atab[i].(exp := true);
        active := active[|active| - 1 := top + [i]];
      }
    }

    /** The end of a command: let go of every alias it holds. */
    method EndCommand()
      requires Valid() && active != []
      modifies this`alist, this`afreelist, this`active, atab
      ensures Valid() && View() == Apply(old(View()), End)
      ensures Names() == Note(old(Names()), End)
    {
      hide Protocol, BookOf, Note, ReleaseAll, Delete;
      ApplyIsNote(View(), End);
      TopIsMarked(View());
      var list := active[|active| - 1];
      var k := 0;
      assert list[0..] == list;
      while k < |list|
        invariant 0 <= k <= |list| && active == old(active)
        invariant forall j :: 0 <= j < |list| ==> list[j] in list && list[j] < atab.Length
        invariant ReleaseAll(View().table, list[k..]) == ReleaseAll(old(View().table), list)
      {
        assert list[k..][1..] == list[k + 1..];
        ReleaseStep(View().table, list[k..]);
        var i := list[k];
        var flagged := atab[i].rem;
        atab[i] := atab[i].(exp := false);
        if flagged {
          DeleteEntry(i);
        }
        k := k + 1;
      }
      ReleaseNone(View().table, list[k..]);
      active := active[..|active| - 1];
    }
  }

  lemma {:induction false} ReleaseStep(t: Table, list: seq<nat>)
    requires list != [] && forall i :: i in list ==> i < |t.tab|
    ensures list[0] < |t.tab| && (forall i :: i in list[1..] ==> i < |t.tab|)
    ensures ReleaseAll(t, list) == ReleaseAll(Release(t, list[0]), list[1..])
  {
    assert list[0] in list;
    assert forall i :: i in list[1..] ==> i in list;
  }

  lemma {:induction false} ReleaseNone(t: Table, list: seq<nat>)
    requires list == []
    ensures ReleaseAll(t, list) == t
  {
  }

  lemma {:induction false} SaveNotes(s: State, name: string, value: string, nameOk: bool, valueOk: bool)
    requires Protocol(s)
    ensures var op := Define(name, value, nameOk, valueOk);
            && InRange(s.table) && Protocol(Apply(s, op)) && InRange(Apply(s, op).table)
            && Apply(s, op) == s.(table := Save(s.table, name, value, nameOk, valueOk).0)
            && BookOf(Apply(s, op)) == Note(BookOf(s), op)
            && Save(s.table, name, value, nameOk, valueOk).1 == CanDefine(BookOf(s), name, nameOk, valueOk)
  {
    hide Protocol, BookOf, Note, Save, CanDefine, FindFrom, Describes;
    ApplyIsNote(s, Define(name, value, nameOk, valueOk));
    BookDescribes(s);
    SizeOf(s);
    DefineNotes(s, name, value, nameOk, valueOk, BookOf(s));
  }

  lemma {:induction false} ExpandableListed(s: State, token: string)
    requires Protocol(s)
    ensures InRange(s.table) && (Expandable(s.table, token).Some? <==> CanExpand(BookOf(s), token))
    ensures Expandable(s.table, token).Some? ==>
              && Expandable(s.table, token).value < |s.table.tab|
              && s.table.tab[Expandable(s.table, token).value].value == BookOf(s).aliases[token].value
  {
    hide Protocol, BookOf, FindFrom, Describes, Expandable;
    InTable(s);
    BookDescribes(s);
    ExpandableExactly(s, token, BookOf(s));
  }

  lemma {:induction false} RangeOf(s: State)
    requires Protocol(s)
    ensures InRange(s.table)
  {
  }
}

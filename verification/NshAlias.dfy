/**
The alias table and who owns its entries. An entry is on the list of live
aliases or on the free list. While a command is being parsed, the aliases it
has expanded are marked and held on that command's own list; commands nest, so
these lists form a stack. Deleting a marked alias only flags it; the command
that holds it frees it when it ends.
*/
module NshAlias {
  import opened NshBasics

  datatype Entry = Entry(name: Option<string>, value: Option<string>, exp: bool, rem: bool)

  const CLEAN := Entry(None, None, false, false)

  datatype Table = Table(tab: seq<Entry>, alist: seq<nat>, afree: seq<nat>)

  // ----- lists of table indices -----

  ghost predicate NoDup(s: seq<nat>)
  {
    forall j, k :: 0 <= j < k < |s| ==> s[j] != s[k]
  }

  function Members(s: seq<nat>): set<nat>
  {
    set i | i in s
  }

  /** `sq_rem`: the list without one entry. */
  function Take(s: seq<nat>, i: nat): (r: seq<nat>)
    ensures forall k :: k in r ==> k in s
  {
    if s == [] then []
    else if s[0] == i then s[1..]
    else [s[0]] + Take(s[1..], i)
  }

  lemma {:induction false} TakeMembers(s: seq<nat>, i: nat)
    requires NoDup(s)
    ensures NoDup(Take(s, i))
    ensures forall k :: k in Take(s, i) <==> k in s && k != i
    ensures forall j :: 0 <= j < |Take(s, i)| ==> Take(s, i)[j] in s
    decreases |s|
  {
    if s != [] {
      TakeMembers(s[1..], i);
      assert s == [s[0]] + s[1..];
      if s[0] == i {
        assert i !in s[1..];
      } else {
        assert s[0] !in Take(s[1..], i);
      }
    }
  }

  // ----- operations on the table -----

  predicate InRange(t: Table)
  {
    && (forall k :: 0 <= k < |t.alist| ==> t.alist[k] < |t.tab|)
    && (forall k :: 0 <= k < |t.afree| ==> t.afree[k] < |t.tab|)
  }

  function Init(n: nat): Table
  {
    Table(seq(n, _ => CLEAN), [], seq(n, i => i))
  }

  /** The first live alias of that name, as an offset into the rest of the list. */
  function FindFrom(t: Table, name: string, k: nat): (r: Option<nat>)
    requires InRange(t) && k <= |t.alist|
    ensures r.Some? ==> r.value in t.alist && t.tab[r.value].name == Some(name)
    ensures r.None? ==> forall j :: k <= j < |t.alist| ==> t.tab[t.alist[j]].name != Some(name)
    decreases |t.alist| - k
  {
    if k == |t.alist| then None
    else
      var i := t.alist[k];
      assert i in t.alist;
      if t.tab[i].name == Some(name) then Some(i) else FindFrom(t, name, k + 1)
  }

  /** `alias_delete`: a marked alias is only flagged. */
  function Delete(t: Table, i: nat): (r: Table)
    requires i < |t.tab|
    ensures |r.tab| == |t.tab|
  {
    if t.tab[i].exp then t.(tab := t.tab[i := t.tab[i].(rem := true)])
    else Table(t.tab[i := CLEAN], Take(t.alist, i), [i] + t.afree)
  }

  /** `alias_save`, with the answers of the two string allocations. */
  function Save(t: Table, name: string, value: string, nameOk: bool, valueOk: bool): (r: (Table, bool))
    requires InRange(t)
    ensures |r.0.tab| == |t.tab|
  {
    if name == "" then (t, false)
    else
      var found := FindFrom(t, name, 0);
      if found.Some? then
        var i := found.value;
        var t1 := t.(tab := t.tab[i := t.tab[i].(value := if valueOk then Some(value) else None)]);
        if valueOk then (t1, true) else (Delete(t1, i), false)
      else if t.afree == [] then (t, false)
      else
        var i := t.afree[0];
        assert i in t.afree;
        var e := t.tab[i].(name := if nameOk then Some(name) else None, value := if valueOk then Some(value) else None);
        var t1 := Table(t.tab[i := e], t.alist + [i], t.afree[1..]);
        if nameOk && valueOk then (t1, true) else (Delete(t1, i), false)
  }

  /** `alias_removeall` over a list of entries. */
  function DeleteAll(t: Table, list: seq<nat>): (r: Table)
    requires forall i :: i in list ==> i < |t.tab|
    ensures |r.tab| == |t.tab|
    decreases |list|
  {
    if list == [] then t
    else
      assert list[0] in list;
      assert forall i :: i in list[1..] ==> i in list;
      DeleteAll(Delete(t, list[0]), list[1..])
  }

  /** What `nsh_alist_free` does to one entry: unmark it, and free it if it was flagged. */
  function Release(t: Table, i: nat): (r: Table)
    requires i < |t.tab|
    ensures |r.tab| == |t.tab|
  {
    var t1 := t.(tab := t.tab[i := t.tab[i].(exp := false)]);
    if t.tab[i].rem then Delete(t1, i) else t1
  }

  function ReleaseAll(t: Table, list: seq<nat>): (r: Table)
    requires forall i :: i in list ==> i < |t.tab|
    ensures |r.tab| == |t.tab|
    decreases |list|
  {
    if list == [] then t
    else
      assert list[0] in list;
      assert forall i :: i in list[1..] ==> i in list;
      ReleaseAll(Release(t, list[0]), list[1..])
  }

  // ----- ownership -----

  /** Every entry is on exactly one list; live names are there and distinct; free
      entries are clean; only marked entries are flagged; the marked entries are
      exactly `marked`. */
  ghost predicate Owned(t: Table, marked: set<nat>)
  {
    && InRange(t)
    && NoDup(t.alist) && NoDup(t.afree)
    && (forall i :: 0 <= i < |t.tab| ==> (i in t.alist <==> i !in t.afree))
    && (forall i :: i in t.afree ==> t.tab[i] == CLEAN)
    && (forall i :: i in t.alist ==> t.tab[i].name.Some?)
    && (forall i, j :: i in t.alist && j in t.alist && i != j ==> t.tab[i].name != t.tab[j].name)
    && (forall i :: 0 <= i < |t.tab| && t.tab[i].rem ==> t.tab[i].exp)
    && (forall i :: 0 <= i < |t.tab| ==> (t.tab[i].exp <==> i in marked))
    && (forall i :: i in marked ==> i < |t.tab|)
  }

  lemma {:induction false} InitOwned(n: nat)
    ensures Owned(Init(n), {})
  {
    forall i | 0 <= i < n
      ensures i in Init(n).afree
    {
      assert Init(n).afree[i] == i;
    }
  }

  lemma {:induction false} DeleteOwned(t: Table, i: nat, marked: set<nat>)
    requires Owned(t, marked) && i in t.alist
    ensures Owned(Delete(t, i), marked)
  {
    hide Take;
    TakeMembers(t.alist, i);
    assert i !in t.afree;
  }

  lemma {:induction false} ReleaseLive(t: Table, i: nat, marked: set<nat>)
    requires Owned(t, marked) && i in marked && !t.tab[i].rem
    ensures Owned(Release(t, i), marked - {i})
    ensures i in Release(t, i).alist
  {
    assert i !in t.afree;
  }

  lemma {:induction false} ReleaseFlagged(t: Table, i: nat, marked: set<nat>)
    requires Owned(t, marked) && i in marked && t.tab[i].rem
    ensures Owned(Release(t, i), marked - {i})
    ensures i in Release(t, i).afree
    ensures forall k :: k != i ==> (k in Release(t, i).alist <==> k in t.alist)
  {
    hide Take;
    TakeMembers(t.alist, i);
    assert i !in t.afree;
  }

  lemma {:induction false} ReleaseOwned(t: Table, i: nat, marked: set<nat>)
    requires Owned(t, marked) && i in marked
    ensures Owned(Release(t, i), marked - {i})
    ensures if t.tab[i].rem then i in Release(t, i).afree else i in Release(t, i).alist && Release(t, i).tab[i] == t.tab[i].(exp := false)
    ensures forall k :: 0 <= k < |t.tab| && k != i ==>
              Release(t, i).tab[k] == t.tab[k] && (k in Release(t, i).alist <==> k in t.alist)
  {
    hide Owned;
    assert i < |t.tab| by { MarkedInTable(t, i, marked); }
    if t.tab[i].rem {
      ReleaseFlagged(t, i, marked);
    } else {
      ReleaseLive(t, i, marked);
    }
  }

  lemma {:induction false} MarkedInTable(t: Table, i: nat, marked: set<nat>)
    requires Owned(t, marked) && i in marked
    ensures i < |t.tab|
  {
  }

  lemma {:induction false} FreshEntryOwned(t: Table, name: string, value: string, marked: set<nat>)
    requires Owned(t, marked) && t.afree != [] && FindFrom(t, name, 0).None?
    ensures var i := t.afree[0];
            Owned(Table(t.tab[i := Entry(Some(name), Some(value), false, false)], t.alist + [i], t.afree[1..]), marked)
  {
    hide FindFrom;
    var i := t.afree[0];
    assert i in t.afree;
    assert i !in t.alist;
    assert t.afree == [i] + t.afree[1..];
    forall k | k in t.alist
      ensures t.tab[k].name != Some(name)
    {
      var j :| 0 <= j < |t.alist| && t.alist[j] == k;
    }
  }

  /** A failed save leaves the table as it was, or without the alias it meant to change. */
  lemma {:induction false} FailedFreshSave(t: Table, e: Entry, marked: set<nat>)
    requires Owned(t, marked) && t.afree != [] && !e.exp
    ensures var i := t.afree[0];
            Delete(Table(t.tab[i := e], t.alist + [i], t.afree[1..]), i) == t
  {
    var i := t.afree[0];
    assert i in t.afree;
    TakeLast(t.alist, i);
    assert t.afree == [i] + t.afree[1..];
  }

  lemma {:induction false} TakeLast(s: seq<nat>, i: nat)
    requires i !in s
    ensures Take(s + [i], i) == s
    decreases |s|
  {
    if s != [] {
      assert (s + [i])[1..] == s[1..] + [i];
      TakeLast(s[1..], i);
    }
  }

  lemma {:induction false} SaveOwned(t: Table, name: string, value: string, nameOk: bool, valueOk: bool, marked: set<nat>)
    requires Owned(t, marked)
    ensures Owned(Save(t, name, value, nameOk, valueOk).0, marked)
  {
    hide Delete, FindFrom, Take;
    if name != "" {
      var found := FindFrom(t, name, 0);
      if found.Some? {
        var i := found.value;
        var t1 := t.(tab := t.tab[i := t.tab[i].(value := if valueOk then Some(value) else None)]);
        assert Owned(t1, marked);
        DeleteOwned(t1, i, marked);
      } else if t.afree != [] {
        var i := t.afree[0];
        assert i in t.afree;
        FreshEntryOwned(t, name, value, marked);
        FailedFreshSave(t, t.tab[i].(name := if nameOk then Some(name) else None, value := if valueOk then Some(value) else None), marked);
      }
    }
  }

  lemma {:induction false} DeleteAllOwned(t: Table, list: seq<nat>, marked: set<nat>)
    requires Owned(t, marked) && NoDup(list) && forall i :: i in list ==> i in t.alist
    ensures Owned(DeleteAll(t, list), marked)
    decreases |list|
  {
    if list != [] {
      var i := list[0];
      assert i in list;
      DeleteOwned(t, i, marked);
      TakeMembers(t.alist, i);
      assert list == [i] + list[1..];
      assert i !in list[1..];
      DeleteAllOwned(Delete(t, i), list[1..], marked);
    }
  }

  /** What the end of a command does to the entries it holds: flagged ones are
      free, the others live and unmarked; nothing else changes. */
  lemma {:induction false} ReleaseAllOwned(t: Table, list: seq<nat>, marked: set<nat>)
    requires Owned(t, marked) && NoDup(list) && forall i :: i in list ==> i in marked
    ensures var r := ReleaseAll(t, list);
            && Owned(r, marked - Members(list))
            && (forall i :: i in list ==>
                  if t.tab[i].rem then i in r.afree else i in r.alist && r.tab[i] == t.tab[i].(exp := false))
            && (forall k :: 0 <= k < |t.tab| && k !in list ==> r.tab[k] == t.tab[k] && (k in r.alist <==> k in t.alist))
    decreases |list|
  {
    if list == [] {
      assert marked - Members(list) == marked;
    } else {
      var i := list[0];
      assert i in list;
      ReleaseOwned(t, i, marked);
      assert list == [i] + list[1..];
      assert i !in list[1..];
      var t1 := Release(t, i);
      ReleaseAllOwned(t1, list[1..], marked - {i});
      assert (marked - {i}) - Members(list[1..]) == marked - Members(list);
    }
  }

  // ----- nested commands -----

  /** The table and the expansion lists of the commands being parsed, outermost first. */
  datatype State = State(table: Table, frames: seq<seq<nat>>)

  function Flat(frames: seq<seq<nat>>): seq<nat>
  {
    if frames == [] then [] else Flat(frames[..|frames| - 1]) + frames[|frames| - 1]
  }

  /** The ownership protocol: an entry is marked exactly when one of the active
      lists holds it, and then only one does, once. */
  ghost predicate Protocol(s: State)
  {
    NoDup(Flat(s.frames)) && Owned(s.table, Members(Flat(s.frames)))
  }

  /** The fresh table with no command active. */
  lemma {:induction false} InitProtocol(n: nat)
    ensures Protocol(State(Init(n), []))
  {
    hide Init;
    InitOwned(n);
    assert Members([]) == {};
  }

  datatype Op =
    | Begin
    | End
    | Expand(token: string)
    | Define(name: string, value: string, nameOk: bool, valueOk: bool)
    | Remove(name: string)
    | RemoveEvery

  /** `nsh_aliasfind`: marked aliases and aliases without a value are not found. */
  function Expandable(t: Table, token: string): (r: Option<nat>)
    requires InRange(t)
    ensures r.Some? ==> r.value in t.alist && !t.tab[r.value].exp
  {
    var found := FindFrom(t, token, 0);
    if found.Some? && !t.tab[found.value].exp && t.tab[found.value].value.Some? then found else None
  }

  /** `nsh_alist_add`, with its capacity test: the list has a slot for every table entry. */
  function Hold(s: State, i: nat): State
    requires s.frames != [] && i < |s.table.tab|
  {
    var top := s.frames[|s.frames| - 1];
    if |top| < |s.table.tab| then
      State(s.table.(tab := s.table.tab[i := s.table.tab[i].(exp := true)]),
            s.frames[|s.frames| - 1 := top + [i]])
    else s
  }

  ghost function Apply(s: State, op: Op): State
    requires Protocol(s)
  {
    match op
    case Begin => s.(frames := s.frames + [[]])
    case End =>
      if s.frames == [] then s
      else
        var top := s.frames[|s.frames| - 1];
        TopIsMarked(s);
        State(ReleaseAll(s.table, top), s.frames[..|s.frames| - 1])
    case Expand(token) =>
      if s.frames == [] || Expandable(s.table, token).None? then s
      else Hold(s, Expandable(s.table, token).value)
    case Define(name, value, nameOk, valueOk) => s.(table := Save(s.table, name, value, nameOk, valueOk).0)
    case Remove(name) =>
      var found := FindFrom(s.table, name, 0);
      if found.Some? then s.(table := Delete(s.table, found.value)) else s
    case RemoveEvery => s.(table := DeleteAll(s.table, s.table.alist))
  }

  lemma {:induction false} TopIsMarked(s: State)
    requires Protocol(s) && s.frames != []
    ensures var top := s.frames[|s.frames| - 1];
            && NoDup(top) && NoDup(Flat(s.frames[..|s.frames| - 1]))
            && (forall i :: i in top ==> i in Flat(s.frames) && i < |s.table.tab| && i !in Flat(s.frames[..|s.frames| - 1]))
  {
    var top := s.frames[|s.frames| - 1];
    var below := Flat(s.frames[..|s.frames| - 1]);
    var all := Flat(s.frames);
    assert all == below + top;
    forall j, k | 0 <= j < k < |top|
      ensures top[j] != top[k]
    {
      assert all[|below| + j] == top[j] && all[|below| + k] == top[k];
    }
    forall i | i in top
      ensures i in all && i !in below && i < |s.table.tab|
    {
      assert i in Members(all) by { assert i in all; }
      var k :| 0 <= k < |top| && top[k] == i;
      assert all[|below| + k] == i;
      forall j | 0 <= j < |below|
        ensures below[j] != i
      {
        assert all[j] == below[j];
      }
    }
    forall j, k | 0 <= j < k < |below|
      ensures below[j] != below[k]
    {
      assert all[j] == below[j] && all[k] == below[k];
    }
  }

  /** A list without duplicates of table indices is no longer than the table. */
  lemma {:induction false} Pigeonhole(list: seq<nat>, n: nat)
    requires NoDup(list) && forall k :: 0 <= k < |list| ==> list[k] < n
    ensures |list| <= n
    decreases n
  {
    if list != [] {
      assert list[0] < n;
      if n - 1 in list {
        var p :| 0 <= p < |list| && list[p] == n - 1;
        var rest := list[..p] + list[p + 1..];
        forall k | 0 <= k < |rest|
          ensures rest[k] < n - 1
        {
          assert rest[k] == if k < p then list[k] else list[k + 1];
        }
        Pigeonhole(rest, n - 1);
      } else {
        forall k | 0 <= k < |list|
          ensures list[k] < n - 1
        {
          assert list[k] in list;
        }
        Pigeonhole(list, n - 1);
      }
    }
  }

  lemma {:induction false} RoomLeft(list: seq<nat>, n: nat, i: nat)
    requires NoDup(list) && i < n && i !in list && forall k :: 0 <= k < |list| ==> list[k] < n
    ensures |list| < n
  {
    Pigeonhole(list + [i], n);
  }

  /** An alias about to be expanded is held by no active list, and the innermost list has room for it. */
  lemma {:induction false} CapacityNeverFails(s: State, token: string)
    requires Protocol(s) && s.frames != [] && Expandable(s.table, token).Some?
    ensures var i := Expandable(s.table, token).value;
            i < |s.table.tab| && i !in Flat(s.frames) && |s.frames[|s.frames| - 1]| < |s.table.tab|
  {
    hide FindFrom, Owned;
    ListsNoDup(s.table, Members(Flat(s.frames)));
    var i := Expandable(s.table, token).value;
    UnmarkedIsFree(s, i);
    TopIsMarked(s);
    var top := s.frames[|s.frames| - 1];
    forall k | 0 <= k < |top|
      ensures top[k] < |s.table.tab|
    {
      assert top[k] in top;
    }
    assert i !in top;
    RoomLeft(top, |s.table.tab|, i);
  }

  lemma {:induction false} UnmarkedIsFree(s: State, i: nat)
    requires Protocol(s) && i in s.table.alist && !s.table.tab[i].exp
    ensures i < |s.table.tab| && i !in Flat(s.frames)
  {
    assert i !in Members(Flat(s.frames));
  }

  lemma {:induction false} HoldKeeps(s: State, i: nat)
    requires Protocol(s) && s.frames != [] && i in s.table.alist && !s.table.tab[i].exp
    requires |s.frames[|s.frames| - 1]| < |s.table.tab|
    ensures Protocol(Hold(s, i))
  {
    UnmarkedIsFree(s, i);
    var all := Flat(s.frames);
    var s' := Hold(s, i);
    assert s'.frames[..|s.frames| - 1] == s.frames[..|s.frames| - 1];
    assert Flat(s'.frames) == all + [i];
    assert Members(all + [i]) == Members(all) + {i};
  }

  lemma {:induction false} EndKeeps(s: State)
    requires Protocol(s) && s.frames != []
    ensures Protocol(Apply(s, End))
  {
    hide Owned, Flat, Members, NoDup, ReleaseAll;
    var top := s.frames[|s.frames| - 1];
    TopIsMarked(s);
    MarkedByTop(s);
    ReleaseAllOwned(s.table, top, Members(Flat(s.frames)));
    MarkedBelow(s);
  }

  lemma {:induction false} MarkedByTop(s: State)
    requires Protocol(s) && s.frames != []
    ensures forall i :: i in s.frames[|s.frames| - 1] ==> i in Members(Flat(s.frames))
  {
    hide Owned;
  }

  /** Without the innermost list, what the others hold is marked. */
  lemma {:induction false} MarkedBelow(s: State)
    requires Protocol(s) && s.frames != []
    ensures var top, below := s.frames[|s.frames| - 1], s.frames[..|s.frames| - 1];
            Members(Flat(s.frames)) - Members(top) == Members(Flat(below))
  {
    hide Owned;
    var top, below := s.frames[|s.frames| - 1], Flat(s.frames[..|s.frames| - 1]);
    TopIsMarked(s);
    assert Flat(s.frames) == below + top;
  }

  lemma {:induction false} ApplyKeeps(s: State, op: Op)
    requires Protocol(s)
    ensures Protocol(Apply(s, op))
  {
    hide Owned, Save, Delete, DeleteAll, FindFrom, Hold;
    ListsNoDup(s.table, Members(Flat(s.frames)));
    match op
    case Begin =>
      assert (s.frames + [[]])[..|s.frames|] == s.frames;
      assert Flat(s.frames + [[]]) == Flat(s.frames);
    case End =>
      if s.frames != [] {
        EndKeeps(s);
      }
    case Expand(token) =>
      if s.frames != [] && Expandable(s.table, token).Some? {
        CapacityNeverFails(s, token);
        HoldKeeps(s, Expandable(s.table, token).value);
      }
    case Define(name, value, nameOk, valueOk) =>
      SaveOwned(s.table, name, value, nameOk, valueOk, Members(Flat(s.frames)));
    case Remove(name) =>
      var found := FindFrom(s.table, name, 0);
      if found.Some? {
        DeleteOwned(s.table, found.value, Members(Flat(s.frames)));
      }
    case RemoveEvery =>
      DeleteAllOwned(s.table, s.table.alist, Members(Flat(s.frames)));
  }

  lemma {:induction false} ListsNoDup(t: Table, marked: set<nat>)
    requires Owned(t, marked)
    ensures InRange(t) && NoDup(t.alist)
  {
  }

  ghost function Runs(s: State, ops: seq<Op>): (r: State)
    requires Protocol(s)
    ensures Protocol(r)
    decreases |ops|
  {
    hide Protocol, Apply;
    if ops == [] then s
    else
      ApplyKeeps(s, ops[0]);
      Runs(Apply(s, ops[0]), ops[1..])
  }

  /** Once no command is active, no entry is marked or flagged. */
  lemma {:induction false} OutermostClean(s: State, ops: seq<Op>)
    requires Protocol(s) && Runs(s, ops).frames == []
    ensures forall i :: 0 <= i < |Runs(s, ops).table.tab| ==>
              !Runs(s, ops).table.tab[i].exp && !Runs(s, ops).table.tab[i].rem
  {
    hide Apply, Runs;
    var r := Runs(s, ops);
    assert Members(Flat(r.frames)) == {};
  }

  // ----- an alias removed while it is being expanded -----

  /** Deleting other entries, or this one again, keeps a flagged entry flagged. */
  lemma {:induction false} DeleteAllKeepsFlag(t: Table, list: seq<nat>, i: nat)
    requires i < |t.tab| && t.tab[i].exp && t.tab[i].rem
    requires forall k :: k in list ==> k < |t.tab|
    ensures DeleteAll(t, list).tab[i] == t.tab[i]
    decreases |list|
  {
    if list != [] {
      assert list[0] in list;
      assert forall k :: k in list[1..] ==> k in list;
      DeleteAllKeepsFlag(Delete(t, list[0]), list[1..], i);
    }
  }

  lemma {:induction false} SaveKeepsFlag(t: Table, name: string, value: string, nameOk: bool, valueOk: bool, i: nat, marked: set<nat>)
    requires Owned(t, marked) && i in marked && t.tab[i].rem
    ensures Save(t, name, value, nameOk, valueOk).0.tab[i].rem
  {
    hide FindFrom, Take;
    if t.afree != [] {
      assert t.afree[0] in t.afree;
      assert i !in t.afree;
    }
  }

  /** Elements of one frame are in no other. */
  lemma {:induction false} FrameInFlat(frames: seq<seq<nat>>, d: nat, i: nat)
    requires d < |frames| && i in frames[d]
    ensures i in Flat(frames)
    decreases |frames|
  {
    if d < |frames| - 1 {
      FrameInFlat(frames[..|frames| - 1], d, i);
    }
  }

  /** While the command that holds a flagged alias is active, the alias stays held and flagged. */
  lemma {:induction false} FlagSticks(s: State, op: Op, i: nat, d: nat)
    requires Protocol(s) && d < |s.frames| && i in s.frames[d] && i < |s.table.tab| && s.table.tab[i].rem
    requires d < |Apply(s, op).frames|
    ensures i in Apply(s, op).frames[d] && i < |Apply(s, op).table.tab| && Apply(s, op).table.tab[i].rem
  {
    hide Owned, Save, DeleteAll, FindFrom, ReleaseAll, Take;
    var marked := Members(Flat(s.frames));
    ListsNoDup(s.table, marked);
    FrameInFlat(s.frames, d, i);
    assert i in marked;
    FlagIsMark(s.table, i, marked);
    match op
    case Begin =>
    case End =>
      var top := s.frames[|s.frames| - 1];
      TopIsMarked(s);
      FrameInFlat(s.frames[..|s.frames| - 1], d, i);
      ReleaseAllOwned(s.table, top, marked);
    case Expand(token) =>
    case Define(name, value, nameOk, valueOk) =>
      SaveKeepsFlag(s.table, name, value, nameOk, valueOk, i, marked);
    case Remove(name) =>
    case RemoveEvery =>
      DeleteAllKeepsFlag(s.table, s.table.alist, i);
  }

  lemma {:induction false} FlagIsMark(t: Table, i: nat, marked: set<nat>)
    requires Owned(t, marked) && i < |t.tab| && t.tab[i].rem
    ensures t.tab[i].exp
  {
  }

  /** The command at depth `d` does not end during the run. */
  ghost predicate StaysOpen(s: State, ops: seq<Op>, d: nat)
    requires Protocol(s)
    decreases |ops|
  {
    d < |s.frames| &&
    (ops != [] ==> (ApplyKeeps(s, ops[0]); StaysOpen(Apply(s, ops[0]), ops[1..], d)))
  }

  /** An alias removed while a command holds it is free as soon as that command
      ends, whatever ran in between, redefinitions of the alias included. */
  lemma {:induction false} RemovedIsFreed(s: State, ops: seq<Op>, i: nat, d: nat)
    requires Protocol(s) && d < |s.frames| && i in s.frames[d] && i < |s.table.tab| && s.table.tab[i].rem
    requires StaysOpen(s, ops, d) && |Runs(s, ops).frames| == d + 1
    ensures i in Apply(Runs(s, ops), End).table.afree
    decreases |ops|
  {
    hide Owned, Apply, Protocol;
    if ops == [] {
      EndFrees(s, i);
    } else {
      ApplyKeeps(s, ops[0]);
      FlagSticks(s, ops[0], i, d);
      RemovedIsFreed(Apply(s, ops[0]), ops[1..], i, d);
    }
  }

  lemma {:induction false} EndFrees(s: State, i: nat)
    requires Protocol(s) && s.frames != [] && i in s.frames[|s.frames| - 1] && i < |s.table.tab| && s.table.tab[i].rem
    ensures i in Apply(s, End).table.afree
  {
    hide Owned;
    TopIsMarked(s);
    ReleaseAllOwned(s.table, s.frames[|s.frames| - 1], Members(Flat(s.frames)));
  }

  lemma {:induction false} RemoveFlags(s: State, name: string, i: nat, d: nat)
    requires Protocol(s) && d < |s.frames| && i in s.frames[d] && FindFrom(s.table, name, 0) == Some(i)
    ensures i < |s.table.tab| && Apply(s, Remove(name)) == s.(table := s.table.(tab := s.table.tab[i := s.table.tab[i].(rem := true)]))
  {
    FrameInFlat(s.frames, d, i);
  }

  /** `unalias` of an alias that an active command is expanding: once that
      command ends the entry is free, whatever ran in between. */
  lemma {:induction false} UnaliasDuringExpansion(s: State, name: string, i: nat, d: nat, ops: seq<Op>)
    requires Protocol(s) && d < |s.frames| && i in s.frames[d] && FindFrom(s.table, name, 0) == Some(i)
    requires var all := [Remove(name)] + ops; StaysOpen(s, all, d) && |Runs(s, all).frames| == d + 1
    ensures i in Apply(Runs(s, [Remove(name)] + ops), End).table.afree
  {
    hide Owned, Protocol, FindFrom;
    RemoveFlags(s, name, i, d);
    ApplyKeeps(s, Remove(name));
    var all := [Remove(name)] + ops;
    assert all[1..] == ops;
    RemovedIsFreed(Apply(s, Remove(name)), ops, i, d);
  }
}

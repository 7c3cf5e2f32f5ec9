/**
NSH variables: one allocated block of characters holding `name=value` strings,
each with its terminator, back to back. The block is searched, shifted and
reallocated in place. For names without an equal sign it is proved to behave as
a map; for other names, which the source accepts too, the contracts say what
happens to the records, `RoundTripExactly` and `StaysDistinctExactly` when that
is still what a map would do, and `ComparisonStops` when a search stays inside
the strings it compares.
*/
module NshVars {
  import opened NshBasics

  datatype Rec = Rec(name: string, value: string)

  predicate GoodName(name: string)
  {
    '=' !in name && '\0' !in name
  }

  predicate GoodRec(r: Rec)
  {
    GoodName(r.name) && '\0' !in r.value
  }

  /** The records of a block. A record's name ends at its first equal sign. */
  predicate WellRecs(recs: seq<Rec>)
  {
    forall k :: 0 <= k < |recs| ==> GoodRec(recs[k])
  }

  /** No name twice. */
  predicate DistinctNames(recs: seq<Rec>)
  {
    forall j, k :: 0 <= j < k < |recs| ==> recs[j].name != recs[k].name
  }

  predicate GoodRecs(recs: seq<Rec>)
  {
    WellRecs(recs) && DistinctNames(recs)
  }

  function Line(r: Rec): (t: string)
    ensures |t| == |r.name| + |r.value| + 1
  {
    r.name + "=" + r.value
  }

  function Text(r: Rec): (t: string)
    ensures |t| == |r.name| + |r.value| + 2
  {
    Line(r) + "\0"
  }

  function Pack(recs: seq<Rec>): string
  {
    if recs == [] then "" else Text(recs[0]) + Pack(recs[1..])
  }

  lemma {:induction false} PackConcat(a: seq<Rec>, b: seq<Rec>)
    ensures Pack(a + b) == Pack(a) + Pack(b)
    decreases |a|
  {
    if a == [] {
      assert a + b == b;
    } else {
      assert (a + b)[1..] == a[1..] + b;
      PackConcat(a[1..], b);
    }
  }

  lemma {:induction false} PackOneMore(recs: seq<Rec>, r: Rec)
    ensures Pack(recs + [r]) == Pack(recs) + Text(r)
  {
    PackConcat(recs, [r]);
    assert Pack([r]) == Text(r) + Pack([]);
  }

  /** Record `k` and its place in the block. */
  lemma {:induction false} PackAt(recs: seq<Rec>, k: nat)
    requires k < |recs|
    ensures Pack(recs) == Pack(recs[..k]) + Text(recs[k]) + Pack(recs[k + 1..])
    ensures Pack(recs[..k + 1]) == Pack(recs[..k]) + Text(recs[k])
  {
    assert recs == recs[..k] + recs[k..];
    PackConcat(recs[..k], recs[k..]);
    assert recs[..k + 1] == recs[..k] + [recs[k]];
    PackConcat(recs[..k], [recs[k]]);
    assert Pack([recs[k]]) == Text(recs[k]) + Pack([]);
  }

  lemma {:induction false} PackNone(recs: seq<Rec>)
    ensures Pack(recs[..0]) == ""
  {
  }

  // ----- the map -----

  function MapOf(recs: seq<Rec>): map<string, string>
  {
    if recs == [] then map[] else MapOf(recs[..|recs| - 1])[recs[|recs| - 1].name := recs[|recs| - 1].value]
  }

  function Without(recs: seq<Rec>, name: string): seq<Rec>
  {
    if recs == [] then []
    else if recs[|recs| - 1].name == name then Without(recs[..|recs| - 1], name)
    else Without(recs[..|recs| - 1], name) + [recs[|recs| - 1]]
  }

  lemma {:induction false} MapOfKeys(recs: seq<Rec>)
    requires GoodRecs(recs)
    ensures forall k :: 0 <= k < |recs| ==> recs[k].name in MapOf(recs) && MapOf(recs)[recs[k].name] == recs[k].value
    ensures forall n :: n in MapOf(recs) ==> exists k :: 0 <= k < |recs| && recs[k].name == n
    decreases |recs|
  {
    if recs != [] {
      var init := recs[..|recs| - 1];
      MapOfKeys(init);
      forall n | n in MapOf(recs)
        ensures exists k :: 0 <= k < |recs| && recs[k].name == n
      {
        if n in MapOf(init) {
          var k :| 0 <= k < |init| && init[k].name == n;
          assert recs[k].name == n;
        } else {
          assert recs[|recs| - 1].name == n;
        }
      }
    }
  }

  lemma {:induction false} WithoutMembers(recs: seq<Rec>, name: string)
    ensures forall r :: r in Without(recs, name) <==> r in recs && r.name != name
    decreases |recs|
  {
    if recs != [] {
      var init, last := recs[..|recs| - 1], recs[|recs| - 1];
      WithoutMembers(init, name);
      assert recs == init + [last];
    }
  }

  lemma {:induction false} WithoutGood(recs: seq<Rec>, name: string)
    requires GoodRecs(recs)
    ensures GoodRecs(Without(recs, name))
    decreases |recs|
  {
    if recs != [] {
      var init, last := recs[..|recs| - 1], recs[|recs| - 1];
      WithoutGood(init, name);
      WithoutMembers(init, name);
      var w := Without(init, name);
      forall k | 0 <= k < |w|
        ensures w[k].name != last.name
      {
        assert w[k] in init;
      }
    }
  }

  lemma {:induction false} RemoveAfterPut(m: map<string, string>, put: string, value: string, name: string)
    ensures m[put := value] - {name} == if put == name then m - {name} else (m - {name})[put := value]
  {
  }

  lemma {:induction false} WithoutIsRemoval(recs: seq<Rec>, name: string)
    ensures MapOf(Without(recs, name)) == MapOf(recs) - {name}
    decreases |recs|
  {
    if recs != [] {
      var init, last := recs[..|recs| - 1], recs[|recs| - 1];
      WithoutIsRemoval(init, name);
      MapOfAppend(Without(init, name), last);
      RemoveAfterPut(MapOf(init), last.name, last.value, name);
      assert MapOf(recs) == MapOf(init)[last.name := last.value];
      hide MapOf;
    }
  }

  lemma {:induction false} MapOfAppend(recs: seq<Rec>, r: Rec)
    ensures MapOf(recs + [r]) == MapOf(recs)[r.name := r.value]
  {
    assert (recs + [r])[..|recs|] == recs;
  }

  /** Taking the one record of that name out of the sequence. */
  lemma {:induction false} WithoutAt(recs: seq<Rec>, k: nat)
    requires GoodRecs(recs) && k < |recs|
    ensures Without(recs, recs[k].name) == recs[..k] + recs[k + 1..]
    decreases |recs|
  {
    var init, last := recs[..|recs| - 1], recs[|recs| - 1];
    if k == |recs| - 1 {
      WithoutNone(init, last.name);
    } else {
      WithoutAt(init, k);
      assert recs[..k] + recs[k + 1..] == (init[..k] + init[k + 1..]) + [last];
    }
  }

  lemma {:induction false} WithoutNone(recs: seq<Rec>, name: string)
    requires forall k :: 0 <= k < |recs| ==> recs[k].name != name
    ensures Without(recs, name) == recs
    decreases |recs|
  {
    if recs != [] {
      WithoutNone(recs[..|recs| - 1], name);
    }
  }

  // ----- the first record that a name finds -----

  /** The search compares up to the equal sign that follows the name. */
  predicate Finds(name: string, r: Rec)
  {
    name + "=" <= Line(r)
  }

  /** A name without an equal sign finds the records of that name only. */
  lemma {:induction false} FindsOwnName(name: string, r: Rec)
    requires GoodName(name) && GoodRec(r)
    ensures Finds(name, r) <==> name == r.name
  {
    var line := Line(r);
    assert line[|r.name|] == '=' && forall i :: 0 <= i < |r.name| ==> line[i] == r.name[i] && r.name[i] in r.name;
    assert forall i :: 0 <= i < |name| ==> (name + "=")[i] == name[i] && name[i] in name;
    if Finds(name, r) {
      assert line[|name|] == (name + "=")[|name|] == '=';
    }
  }

  function FirstFound(recs: seq<Rec>, name: string): (k: nat)
    ensures k <= |recs| && (k < |recs| ==> Finds(name, recs[k]))
    ensures forall j :: 0 <= j < k ==> !Finds(name, recs[j])
  {
    if recs == [] || Finds(name, recs[0]) then 0 else 1 + FirstFound(recs[1..], name)
  }

  /** What a search that looks at each record in turn arrives at. */
  lemma {:induction false} FirstFoundIs(recs: seq<Rec>, name: string, k: nat)
    requires k <= |recs| && (k < |recs| ==> Finds(name, recs[k]))
    requires forall j :: 0 <= j < k ==> !Finds(name, recs[j])
    ensures FirstFound(recs, name) == k
  {
    hide FirstFound, Finds;
  }

  // ----- how far a comparison reads -----

  /** Where the loop of `nsh_cmpname` stops: the first place at which the two memories differ, or the end of what is known. */
  function Mismatch(a: string, b: string): (i: nat)
    ensures i <= |a| && i <= |b| && a[..i] == b[..i]
    ensures i < |a| && i < |b| ==> a[i] != b[i]
    decreases |a|
  {
    if a == "" || b == "" || a[0] != b[0] then 0
    else
      var i := Mismatch(a[1..], b[1..]);
      assert a[..i + 1] == [a[0]] + a[1..][..i];
      assert b[..i + 1] == [b[0]] + b[1..][..i];
      i + 1
  }

  /** Memory that begins with a string and its terminator. */
  predicate Begins(memory: string, t: string)
  {
    |t| < |memory| && memory[..|t|] == t && memory[|t|] == '\0' && '\0' !in t
  }

  /** Whatever stands behind the two terminators, the comparison stops at or before that of the
      record exactly when the name is not the whole text of the record. If it stops there, its
      answer is whether the name finds the record. */
  lemma {:induction false} ComparisonStops(name: string, r: Rec, a: string, b: string)
    requires Begins(a, name) && Begins(b, Line(r))
    ensures Mismatch(a, b) <= |Line(r)| <==> name != Line(r)
    ensures Mismatch(a, b) <= |name| <==> name != Line(r)
    ensures name != Line(r) ==> var i := Mismatch(a, b); (a[i] == '\0' && b[i] == '=' <==> Finds(name, r))
  {
    hide Mismatch, Line;
    var i, line := Mismatch(a, b), Line(r);
    assert forall j :: 0 <= j < |name| ==> a[j] == a[..|name|][j] == name[j];
    assert forall j :: 0 <= j < |line| ==> b[j] == b[..|line|][j] == line[j];
    assert forall j :: 0 <= j < i ==> a[j] == a[..i][j] == b[..i][j] == b[j];
    if name != line && Finds(name, r) {
      assert line[..|name| + 1] == name + "=";
      assert line[|name|] == '=';
    }
    if name != line && a[i] == '\0' && b[i] == '=' {
      assert line[..|name| + 1] == name + "=";
    }
  }

  /** No comparison on the way to the record that is found, or to the end, runs past the terminators. */
  predicate Sought(recs: seq<Rec>, name: string)
  {
    forall k :: 0 <= k < |recs| && k <= FirstFound(recs, name) ==> name != Line(recs[k])
  }

  /** `Sought` is what it says: in every comparison of the search, whatever stands behind the name in
      memory, the loop stops inside the two strings. From record `k` on the block is `Pack(recs[k..])`. */
  lemma {:induction false} SoughtExactly(recs: seq<Rec>, name: string, behind: string)
    requires WellRecs(recs) && '\0' !in name
    ensures Sought(recs, name) <==>
            forall k :: 0 <= k < |recs| && k <= FirstFound(recs, name) ==>
              Mismatch(name + "\0" + behind, Pack(recs[k..])) <= |Line(recs[k])|
  {
    hide FirstFound, Mismatch, Pack, Line, Text, Finds;
    forall k | 0 <= k < |recs|
      ensures name != Line(recs[k]) <==> Mismatch(name + "\0" + behind, Pack(recs[k..])) <= |Line(recs[k])|
    {
      RecordBegins(recs[k..]);
      NameBegins(name, behind);
      ComparisonStops(name, recs[k], name + "\0" + behind, Pack(recs[k..]));
    }
  }

  lemma {:induction false} NameBegins(name: string, behind: string)
    requires '\0' !in name
    ensures Begins(name + "\0" + behind, name)
  {
  }

  lemma {:induction false} RecordBegins(recs: seq<Rec>)
    requires recs != [] && GoodRec(recs[0])
    ensures Begins(Pack(recs), Line(recs[0]))
  {
    hide Line;
    var line := Line(recs[0]);
    TextChars(recs[0]);
    assert Pack(recs) == line + ("\0" + Pack(recs[1..]));
    assert forall j :: 0 <= j < |line| ==> line[j] == Text(recs[0])[j];
  }

  /** `set a=b c`, and then `a=b=c` is looked up: both strings are the same, terminators included. */
  lemma {:induction false} SearchOverruns()
    ensures var recs := SetRecs([], "a=b", "c", true); !Sought(recs, "a=b=c")
  {
    assert Line(RecOf("a=b", "c")) == "a=b=c";
    var recs := SetRecs([], "a=b", "c", true);
    assert recs == [RecOf("a=b", "c")];
    assert Line(recs[0]) == "a=b=c";
  }

  lemma {:induction false} GoodNameSought(recs: seq<Rec>, name: string)
    requires GoodName(name)
    ensures Sought(recs, name)
  {
    hide FirstFound;
    forall k | 0 <= k < |recs| && k <= FirstFound(recs, name)
      ensures name != Line(recs[k])
    {
      assert Line(recs[k])[|recs[k].name|] == '=';
    }
  }

  function DropFound(recs: seq<Rec>, name: string): seq<Rec>
  {
    var k := FirstFound(recs, name);
    if k < |recs| then recs[..k] + recs[k + 1..] else recs
  }

  /** `nsh_getvar`: what stands behind the first equal sign of the record that is found. */
  function GetRecs(recs: seq<Rec>, name: string): Option<string>
  {
    var k := FirstFound(recs, name);
    if k < |recs| then Some(recs[k].value) else None
  }

  /** The record that is written for a name, which may itself hold an equal sign. */
  function RecOf(name: string, value: string): (r: Rec)
    ensures Line(r) == name + "=" + value && r.name == HeadOf(name)
    ensures '=' !in name ==> r == Rec(name, value)
    ensures '=' in name ==> r.name < name && |r.value| > |value|
    ensures '\0' !in name && '\0' !in value ==> GoodRec(r)
  {
    if '=' !in name then Rec(name, value)
    else
      var i := FirstEqual(name);
      assert name == name[..i] + "=" + name[i + 1..];
      Rec(name[..i], name[i + 1..] + "=" + value)
  }

  /** The name up to its first equal sign, or the whole name. */
  function HeadOf(name: string): (h: string)
    ensures '=' !in h && ('=' !in name ==> h == name)
  {
    if '=' in name then name[..FirstEqual(name)] else name
  }

  function FirstEqual(name: string): (i: nat)
    requires '=' in name
    ensures i < |name| && name[i] == '=' && '=' !in name[..i]
  {
    if name[0] == '=' then 0
    else
      var i := FirstEqual(name[1..]);
      assert name[..i + 1] == [name[0]] + name[1..][..i];
      i + 1
  }

  lemma {:induction false} FoundIsNamed(recs: seq<Rec>, name: string)
    requires GoodRecs(recs) && GoodName(name)
    ensures var k := FirstFound(recs, name);
            && (k < |recs| ==> recs[k].name == name)
            && (k == |recs| ==> forall j :: 0 <= j < |recs| ==> recs[j].name != name)
  {
    hide FirstFound, Finds;
    var k := FirstFound(recs, name);
    forall j | 0 <= j < |recs|
      ensures Finds(name, recs[j]) <==> recs[j].name == name
    {
      FindsOwnName(name, recs[j]);
    }
  }

  lemma {:induction false} DropIsWithout(recs: seq<Rec>, name: string)
    requires GoodRecs(recs) && GoodName(name)
    ensures DropFound(recs, name) == Without(recs, name)
  {
    hide FirstFound, Finds, Without;
    FoundIsNamed(recs, name);
    var k := FirstFound(recs, name);
    if k < |recs| {
      WithoutAt(recs, k);
    } else {
      WithoutNone(recs, name);
    }
  }

  lemma {:induction false} GetIsLookup(recs: seq<Rec>, name: string)
    requires GoodRecs(recs) && GoodName(name)
    ensures GetRecs(recs, name) == if name in MapOf(recs) then Some(MapOf(recs)[name]) else None
  {
    hide FirstFound, Finds, MapOf;
    FoundIsNamed(recs, name);
    MapOfKeys(recs);
  }

  // ----- names in the block -----

  /** The middle part of a string. */
  lemma {:induction false} Middle(b: string, p: string, t: string, q: string)
    requires b == p + t + q
    ensures b[..|p|] == p && b[|p|..|p| + |t|] == t && b[|p| + |t|..] == q
    ensures forall i :: |p| <= i < |p| + |t| ==> b[i] == t[i - |p|]
  {
  }

  lemma {:induction false} PartOfMiddle(b: string, p: string, t: string, q: string, i: nat, j: nat)
    requires b == p + t + q && i <= j <= |t|
    ensures b[|p| + i..|p| + j] == t[i..j]
  {
  }

  lemma {:induction false} TextChars(r: Rec)
    requires GoodRec(r)
    ensures var t := Text(r);
            && t[|t| - 1] == '\0' && t[0..|t| - 1] == Line(r)
            && (forall i :: 0 <= i < |t| - 1 ==> t[i] != '\0')
            && (forall i :: 0 <= i < |r.name| ==> t[i] == r.name[i] && t[i] != '=')
            && t[|r.name|] == '=' && t[|r.name| + 1..|t| - 1] == r.value
  {
    var t := Text(r);
    forall i | 0 <= i < |t| - 1
      ensures t[i] != '\0'
    {
      if i < |r.name| {
        assert t[i] == r.name[i];
      } else if i > |r.name| {
        assert t[i] == r.value[i - |r.name| - 1];
      }
    }
  }

  /** A record's terminator is its first. */
  lemma {:induction false} RecordEnds(recs: seq<Rec>, k: nat)
    requires WellRecs(recs) && k < |recs|
    ensures var at := |Pack(recs[..k])|; var n := |Text(recs[k])| - 1;
            && at + n < |Pack(recs)| && Pack(recs)[at + n] == '\0'
            && (forall i :: at <= i < at + n ==> Pack(recs)[i] != '\0')
            && |Pack(recs[..k + 1])| == at + n + 1
            && Pack(recs)[at..at + n] == Line(recs[k])
  {
    hide Pack, Text, GoodRec;
    PackAt(recs, k);
    TextChars(recs[k]);
    var b, p, t := Pack(recs), Pack(recs[..k]), Text(recs[k]);
    Middle(b, p, t, Pack(recs[k + 1..]));
    PartOfMiddle(b, p, t, Pack(recs[k + 1..]), 0, |t| - 1);
  }

  /** The characters of a record. */
  lemma {:induction false} RecordChars(recs: seq<Rec>, k: nat)
    requires WellRecs(recs) && k < |recs|
    ensures var at := |Pack(recs[..k])|; var r := recs[k]; var b := Pack(recs);
            && at + |Text(r)| <= |b|
            && (forall j :: at <= j < at + |r.name| ==> b[j] == r.name[j - at] && b[j] != '=')
            && b[at + |r.name|] == '='
            && b[at + |r.name| + 1..at + |Text(r)| - 1] == r.value
  {
    hide Pack, Text, GoodRec;
    PackAt(recs, k);
    TextChars(recs[k]);
    var b, p, r, t := Pack(recs), Pack(recs[..k]), recs[k], Text(recs[k]);
    Middle(b, p, t, Pack(recs[k + 1..]));
    PartOfMiddle(b, p, t, Pack(recs[k + 1..]), |r.name| + 1, |t| - 1);
  }

  lemma {:induction false} SubsequenceGood(recs: seq<Rec>, k: nat)
    requires WellRecs(recs) && k < |recs|
    ensures WellRecs(recs[..k] + recs[k + 1..])
    ensures DistinctNames(recs) ==> DistinctNames(recs[..k] + recs[k + 1..])
  {
  }

  lemma {:induction false} SliceOfPrefix(a: array<char>, n: nat, i: nat, j: nat)
    requires i <= j <= n <= a.Length
    ensures a[i..j] == a[..n][i..j]
  {
  }

  /** Move `a[from..end]` down to `to`. */
  method ShiftDown(a: array<char>, to: nat, from: nat, end: nat)
    requires to <= from <= end <= a.Length
    modifies a
    ensures a[..to + (end - from)] == old(a[..to]) + old(a[from..end])
  {
    ghost var was := a[..];
    ghost var goal := was[..to] + was[from..end];
    var src, dest, count := from, to, end - from;
    while count > 0
      invariant 0 <= count && src == end - count && dest == to + (src - from)
      invariant forall i :: 0 <= i < dest ==> a[i] == goal[i]
      invariant forall i :: src <= i < end ==> a[i] == was[i]
    {
      assert goal[dest] == was[src];
      a[dest] := a[src];
      dest, src, count := dest + 1, src + 1, count - 1;
    }
  }

  /** A new block with what was used of the old one and `text` behind it. */
  method Reallocate(a: array?<char>, used: nat, text: string) returns (b: array<char>)
    requires if a == null then used == 0 else used <= a.Length
    ensures fresh(b) && b[..] == (if a == null then "" else a[..used]) + text
  {
    b := new char[used + |text|];
    if a != null {
      forall i | 0 <= i < used {
        b[i] := a[i];
      }
    }
    forall i | 0 <= i < |text| {
      b[used + i] := text[i];
    }
    assert b[..] == b[..used] + b[used..];
    assert b[used..] == text;
  }

  /** The records after `nsh_setvar`, whose allocation may fail after the old record is gone. */
  function SetRecs(recs: seq<Rec>, name: string, value: string, ok: bool): seq<Rec>
  {
    if ok then DropFound(recs, name) + [RecOf(name, value)] else DropFound(recs, name)
  }

  lemma {:induction false} DropWell(recs: seq<Rec>, name: string)
    requires WellRecs(recs)
    ensures WellRecs(DropFound(recs, name))
    ensures DistinctNames(recs) ==> DistinctNames(DropFound(recs, name))
  {
    hide FirstFound;
    var k := FirstFound(recs, name);
    if k < |recs| {
      SubsequenceGood(recs, k);
    }
  }

  lemma {:induction false} SetRecsWell(recs: seq<Rec>, name: string, value: string, ok: bool)
    requires WellRecs(recs) && '\0' !in name && '\0' !in value
    ensures WellRecs(SetRecs(recs, name, value, ok))
  {
    hide DropFound, RecOf;
    DropWell(recs, name);
  }

  lemma {:induction false} SetRecsGood(recs: seq<Rec>, name: string, value: string, ok: bool)
    requires GoodRecs(recs) && GoodName(name) && '\0' !in value
    ensures GoodRecs(SetRecs(recs, name, value, ok))
    ensures MapOf(SetRecs(recs, name, value, ok)) == if ok then MapOf(recs)[name := value] else MapOf(recs) - {name}
  {
    hide DropFound, RecOf, Without, MapOf, Line;
    DropIsWithout(recs, name);
    WithoutGood(recs, name);
    WithoutMembers(recs, name);
    WithoutIsRemoval(recs, name);
    MapOfAppend(Without(recs, name), Rec(name, value));
    forall k | 0 <= k < |Without(recs, name)|
      ensures Without(recs, name)[k].name != name
    {
      assert Without(recs, name)[k] in Without(recs, name);
    }
  }

  lemma {:induction false} DistinctAppend(kept: seq<Rec>, r: Rec)
    requires DistinctNames(kept)
    ensures DistinctNames(kept + [r]) <==> forall k :: 0 <= k < |kept| ==> kept[k].name != r.name
  {
    var all := kept + [r];
    assert all[|kept|] == r && forall k :: 0 <= k < |kept| ==> all[k] == kept[k];
  }

  /** Setting keeps the names distinct exactly when no record that stays has
      the name up to the first equal sign of the name that is set. */
  lemma {:induction false} StaysDistinctExactly(recs: seq<Rec>, name: string, value: string)
    requires GoodRecs(recs) && '\0' !in name && '\0' !in value
    ensures DistinctNames(SetRecs(recs, name, value, true)) <==>
            forall k :: 0 <= k < |DropFound(recs, name)| ==> DropFound(recs, name)[k].name != HeadOf(name)
    ensures '=' !in name ==> DistinctNames(SetRecs(recs, name, value, true))
  {
    hide DropFound, FirstFound, Line, RecOf, HeadOf;
    DropWell(recs, name);
    DistinctAppend(DropFound(recs, name), RecOf(name, value));
    if '=' !in name {
      SetRecsGood(recs, name, value, true);
    }
  }

  /** Reading a variable back gives the value it was set to exactly when another record that the name
      finds has stayed, with that value, or none has stayed and the name has no equal sign. */
  lemma {:induction false} RoundTripExactly(recs: seq<Rec>, name: string, value: string)
    ensures var kept := DropFound(recs, name);
            var k := FirstFound(kept, name);
            GetRecs(SetRecs(recs, name, value, true), name) == Some(value) <==>
            if k < |kept| then kept[k].value == value else '=' !in name
  {
    hide FirstFound, DropFound, RecOf, Line;
    var kept, r := DropFound(recs, name), RecOf(name, value);
    var k, after := FirstFound(kept, name), kept + [r];
    assert Finds(name, r) by { assert name + "=" + value == (name + "=") + value; }
    assert after[|kept|] == r && forall j :: 0 <= j < |kept| ==> after[j] == kept[j];
    FirstFoundIs(after, name, k);
  }

  /** On a block with distinct names that is exactly when the name has no equal sign. */
  lemma {:induction false} RoundTripDistinct(recs: seq<Rec>, name: string, value: string)
    requires GoodRecs(recs) && '\0' !in name
    ensures GetRecs(SetRecs(recs, name, value, true), name) == Some(value) <==> '=' !in name
  {
    hide FirstFound, DropFound, GetRecs, SetRecs, Finds;
    RoundTripExactly(recs, name, value);
    OnlyOneFound(recs, name);
  }

  /** Records with distinct names: at most one is found. */
  lemma {:induction false} OnlyOneFound(recs: seq<Rec>, name: string)
    requires GoodRecs(recs) && '\0' !in name
    ensures forall j :: 0 <= j < |DropFound(recs, name)| ==> !Finds(name, DropFound(recs, name)[j])
  {
    hide FirstFound, Finds, HeadOf;
    var k := FirstFound(recs, name);
    forall j | 0 <= j < |recs| && j != k
      ensures !Finds(name, recs[j])
    {
      if Finds(name, recs[j]) {
        FoundHasHead(name, recs[j]);
        FoundHasHead(name, recs[k]);
      }
    }
  }

  /** A record that is found has the name up to its first equal sign. */
  lemma {:induction false} FoundHasHead(name: string, r: Rec)
    requires '\0' !in name && GoodRec(r) && Finds(name, r)
    ensures r.name == HeadOf(name)
  {
    if '=' in name {
      FoundHasFront(name, r);
    } else {
      FindsOwnName(name, r);
    }
  }

  lemma {:induction false} FoundHasFront(name: string, r: Rec)
    requires '=' in name && GoodRec(r) && Finds(name, r)
    ensures r.name == name[..FirstEqual(name)]
  {
    var i, line := FirstEqual(name), Line(r);
    assert line[..|name|] == name;
    assert line[i] == '=' && line[..i] == name[..i];
    assert line[..|r.name|] == r.name && line[|r.name|] == '=';
    assert forall j :: 0 <= j < i ==> name[..i][j] in name[..i] && line[j] != '=';
    assert forall j :: 0 <= j < |r.name| ==> line[..|r.name|][j] in r.name && line[j] != '=';
    assert |r.name| == i;
  }

  /** `set a=b c` after `set a x`: two records of the name `a`, and `a=b` reads back as `b=c`. */
  lemma {:induction false} EqualSignInName()
    ensures var recs := SetRecs(SetRecs([], "a", "x", true), "a=b", "c", true);
            recs == [AX, ABC] && GetRecs(recs, "a=b") == Some("b=c")
  {
    assert FirstEqual("a=b") == 1;
    assert RecOf("a=b", "c") == Rec("a", "b=c");
    assert RecOf("a", "x") == Rec("a", "x");
    assert Line(Rec("a", "x")) == "a=x";
    assert Line(Rec("a", "b=c")) == "a=b=c";
    assert "a=b" + "=" == "a=b=";
    assert SetRecs([], "a", "x", true) == [Rec("a", "x")];
    assert !Finds("a=b", Rec("a", "x")) by { assert "a=x"[2] != "a=b="[2]; }
    assert Finds("a=b", Rec("a", "b=c"));
    FirstFoundIs([Rec("a", "x")], "a=b", 1);
    FirstFoundIs([Rec("a", "x"), Rec("a", "b=c")], "a=b", 1);
  }

  const AX := Rec("a", "x")
  const ABC := Rec("a", "b=c")

  lemma {:induction false} TheyAreFound()
    ensures Finds("a", AX) && Finds("a", ABC) && Finds("a=b", ABC) && Finds("a", Rec("a", "y"))
  {
    assert Line(AX) == "a=x" && Line(ABC) == "a=b=c" && Line(Rec("a", "y")) == "a=y";
    assert "a" + "=" == "a=" && "a=b" + "=" == "a=b=";
  }

  /** The first record is found and goes. */
  lemma {:induction false} FirstGoes(r: Rec, rest: seq<Rec>, name: string)
    requires Finds(name, r)
    ensures FirstFound([r] + rest, name) == 0 && DropFound([r] + rest, name) == rest
    ensures GetRecs([r] + rest, name) == Some(r.value)
  {
    hide Finds, FirstFound;
    var recs := [r] + rest;
    FirstFoundIs(recs, name, 0);
    assert recs[..0] + recs[1..] == rest;
  }

  /** From there on a name without an equal sign may read back wrong, and one with an equal sign right:
      `set a y` reads back as `b=c`; after `set a b=c`, `set a=b b=c` reads back as it was set. */
  lemma {:induction false} TwoOfOneName()
    ensures GetRecs(SetRecs([AX, ABC], "a", "y", true), "a") == Some("b=c")
    ensures SetRecs([AX, ABC], "a", "b=c", true) == [ABC, ABC]
    ensures GetRecs(SetRecs([ABC, ABC], "a=b", "b=c", true), "a=b") == Some("b=c")
  {
    hide Finds, FirstFound, DropFound, GetRecs, Line;
    TheyAreFound();
    assert [AX] + [ABC] == [AX, ABC] && [ABC] + [ABC] == [ABC, ABC] && [ABC] + [] == [ABC];
    FirstGoes(AX, [ABC], "a");
    FirstGoes(ABC, [Rec("a", "y")], "a");
    FirstGoes(ABC, [ABC], "a=b");
    FirstGoes(ABC, [RecOf("a=b", "b=c")], "a=b");
    assert RecOf("a", "y") == Rec("a", "y") && RecOf("a", "b=c") == ABC;
  }

  /** The `name=value` strings in the order of the block. */
  function Entries(recs: seq<Rec>): seq<string>
  {
    if recs == [] then [] else [Line(recs[0])] + Entries(recs[1..])
  }

  lemma {:induction false} EntriesLength(recs: seq<Rec>)
    ensures |Entries(recs)| == |recs|
    decreases |recs|
  {
    if recs != [] {
      EntriesLength(recs[1..]);
    }
  }

  lemma {:induction false} EntryAt(recs: seq<Rec>, k: nat)
    requires k < |recs|
    ensures |Entries(recs)| == |recs| && Entries(recs)[k] == Line(recs[k])
    decreases |recs|
  {
    EntriesLength(recs);
    if k > 0 {
      EntryAt(recs[1..], k - 1);
    }
  }

  /** The strings are the bindings of the map, each once. */
  lemma {:induction false} EntriesAreBindings(recs: seq<Rec>)
    requires GoodRecs(recs)
    ensures |Entries(recs)| == |MapOf(recs)|
    ensures forall n, v :: n in MapOf(recs) && MapOf(recs)[n] == v ==> Line(Rec(n, v)) in Entries(recs)
    decreases |recs|
  {
    EntriesLength(recs);
    MapOfKeys(recs);
    forall n, v | n in MapOf(recs) && MapOf(recs)[n] == v
      ensures Line(Rec(n, v)) in Entries(recs)
    {
      var k :| 0 <= k < |recs| && recs[k].name == n;
      EntryAt(recs, k);
    }
    MapOfSize(recs);
  }

  lemma {:induction false} MapOfSize(recs: seq<Rec>)
    requires GoodRecs(recs)
    ensures |MapOf(recs)| == |recs|
    decreases |recs|
  {
    if recs != [] {
      var init, last := recs[..|recs| - 1], recs[|recs| - 1];
      MapOfSize(init);
      MapOfKeys(init);
      assert last.name !in MapOf(init);
      assert MapOf(recs).Keys == MapOf(init).Keys + {last.name};
    }
  }

  // ----- runs -----

  datatype Op = Set(name: string, value: string, canAllocate: bool) | Unset(name: string)

  predicate GoodOp(op: Op)
  {
    GoodName(op.name) && (op.Set? ==> '\0' !in op.value)
  }

  function ApplyRecs(recs: seq<Rec>, ops: seq<Op>): seq<Rec>
    decreases |ops|
  {
    if ops == [] then recs
    else match ops[0]
      case Set(n, v, ok) => ApplyRecs(SetRecs(recs, n, v, ok), ops[1..])
      case Unset(n) => ApplyRecs(DropFound(recs, n), ops[1..])
  }

  function ApplyMap(m: map<string, string>, ops: seq<Op>): map<string, string>
    decreases |ops|
  {
    if ops == [] then m
    else match ops[0]
      case Set(n, v, ok) => ApplyMap(if ok then m[n := v] else m - {n}, ops[1..])
      case Unset(n) => ApplyMap(m - {n}, ops[1..])
  }

  /** Over any run of set and unset, allocation failures included, the block stays
      a list of distinct records and means what the map means. */
  lemma {:induction false} RunsRefineMap(recs: seq<Rec>, ops: seq<Op>)
    requires GoodRecs(recs) && forall k :: 0 <= k < |ops| ==> GoodOp(ops[k])
    ensures GoodRecs(ApplyRecs(recs, ops))
    ensures MapOf(ApplyRecs(recs, ops)) == ApplyMap(MapOf(recs), ops)
    decreases |ops|
  {
    if ops != [] {
      match ops[0]
      case Set(n, v, ok) =>
        SetRecsGood(recs, n, v, ok);
        RunsRefineMap(SetRecs(recs, n, v, ok), ops[1..]);
      case Unset(n) =>
        DropIsWithout(recs, n);
        WithoutGood(recs, n);
        WithoutIsRemoval(recs, n);
        RunsRefineMap(DropFound(recs, n), ops[1..]);
    }
  }

  /** Unsetting fails only when a block that is still in use cannot be made smaller. */
  predicate UnsetOk(vars: map<string, string>, name: string, canAllocate: bool)
  {
    canAllocate || name !in vars || vars - {name} == map[]
  }

  lemma {:induction false} EmptyBlock(recs: seq<Rec>)
    ensures Pack(recs) == "" <==> recs == []
  {
  }

  lemma {:induction false} UnsetIsRemoval(recs: seq<Rec>, name: string, canAllocate: bool)
    requires GoodRecs(recs) && GoodName(name)
    ensures DistinctNames(DropFound(recs, name)) && MapOf(DropFound(recs, name)) == MapOf(recs) - {name}
    ensures UnsetOk(MapOf(recs), name, canAllocate) <==> canAllocate || GetRecs(recs, name).None? || DropFound(recs, name) == []
  {
    hide MapOf, DropFound, GetRecs, Without;
    DropIsWithout(recs, name);
    WithoutGood(recs, name);
    WithoutIsRemoval(recs, name);
    GetIsLookup(recs, name);
    MapOfSize(Without(recs, name));
  }

  lemma {:induction false} WrittenText(name: string, value: string)
    ensures Text(RecOf(name, value)) == name + "=" + value + "\0"
  {
  }

  /** What a comparison that has stopped at `i` inside the line says. */
  lemma {:induction false} PrefixCompared(name: string, line: string, i: nat)
    requires i <= |name| && i <= |line| && forall j :: 0 <= j < i ==> name[j] == line[j]
    requires i < |name| ==> i == |line| || name[i] != line[i]
    ensures i == |name| == |line| <==> name == line
    ensures i == |name| < |line| && line[i] == '=' <==> name + "=" <= line
  {
    if name + "=" <= line {
      assert line[..|name| + 1] == name + "=";
      assert forall j :: 0 <= j < |name| ==> line[..|name| + 1][j] == name[j];
    }
    if i == |name| < |line| && line[i] == '=' {
      assert line[..i + 1] == name + "=";
    }
  }

  // ----- the block itself -----

  class VarStore {
    var varp: array?<char>
    var varsz: nat
    ghost var recs: seq<Rec>

    ghost function Block(): set<object>
      reads this
    {
      if varp == null then {} else {varp}
    }

    ghost function Buffer(): string
      reads this, Block()
      requires varp != null ==> varsz <= varp.Length
    {
      if varp == null then "" else varp[..varsz]
    }

    ghost predicate Valid()
      reads this, Block()
    {
      && (varp == null ==> varsz == 0)
      && (varp != null ==> varsz <= varp.Length)
      && WellRecs(recs)
      && Buffer() == Pack(recs)
    }

    ghost function Vars(): map<string, string>
      reads this
    {
      MapOf(recs)
    }

    constructor ()
      ensures Valid() && recs == [] && Block() == {}
    {
      varp, varsz, recs := null, 0, [];
    }

    /** `strlen` of the string at `at`. */
    method StringLength(at: nat, ghost k: nat) returns (n: nat)
      requires Valid() && k < |recs| && at == |Pack(recs[..k])|
      ensures n == |Text(recs[k])| - 1
    {
      RecordEnds(recs, k);
      n := 0;
      while varp[at + n] != '\0'
        invariant n <= |Text(recs[k])| - 1
        decreases |Text(recs[k])| - 1 - n
      {
        n := n + 1;
      }
    }

    /** `nsh_cmpname`. `over` is set where the source goes on past both terminators; what it answers
        then depends on the memory behind them, and here it is that the names differ. */
    method CompareName(name: string, at: nat, ghost k: nat) returns (same: bool, over: bool)
      requires Valid() && '\0' !in name && k < |recs| && at == |Pack(recs[..k])|
      ensures over <==> name == Line(recs[k])
      ensures same <==> Finds(name, recs[k])
    {
      hide Pack, Line, Text, WellRecs;
      RecordEnds(recs, k);
      ghost var b, line := Pack(recs), Line(recs[k]);
      assert varp[..varsz] == b;
      assert forall j :: at <= j < varsz ==> varp[j] == b[j];
      assert forall j :: 0 <= j < |line| ==> b[at..at + |line|][j] == line[j];
      var i := 0;
      while i < |name| && name[i] == varp[at + i]
        invariant 0 <= i <= |name| && i <= |line|
        invariant forall j :: 0 <= j < i ==> name[j] == line[j]
      {
        assert i < |line| ==> line[i] == b[at + i];
        i := i + 1;
      }
      assert i < |line| ==> line[i] == b[at + i];
      over := i == |name| && varp[at + i] == '\0';
      same := i == |name| && varp[at + i] == '=';
      PrefixCompared(name, line, i);
    }

    /** The offset of the first record that the name finds, or -1. */
    method FindVar(name: string) returns (ptr: int, over: bool, ghost k: nat)
      requires Valid() && '\0' !in name
      ensures over <==> !Sought(recs, name)
      ensures k == FirstFound(recs, name)
      ensures ptr == if k < |recs| then |Pack(recs[..k])| else -1
      ensures ptr >= 0 <==> GetRecs(recs, name).Some?
    {
      hide Pack, Line, Text, WellRecs, Finds, FirstFound;
      ptr, over, k := 0, false, 0;
      assert recs[..|recs|] == recs;
      PackNone(recs);
      while ptr < varsz
        invariant k <= |recs| && 0 <= ptr == |Pack(recs[..k])| <= varsz
        invariant forall j :: 0 <= j < k ==> !Finds(name, recs[j])
        invariant over <==> exists j :: 0 <= j < k && name == Line(recs[j])
        decreases varsz - ptr
      {
        if k == |recs| {
          assert false;
        }
        var same, past := CompareName(name, ptr, k);
        over := over || past;
        if same {
          FirstFoundIs(recs, name, k);
          return;
        }
        var n := StringLength(ptr, k);
        RecordEnds(recs, k);
        ptr := ptr + (n + 1);
        k := k + 1;
      }
      if k < |recs| {
        RecordEnds(recs, k);
        assert false;
      }
      FirstFoundIs(recs, name, k);
      ptr := -1;
    }

    /** Shift the records after the removed one down over it. */
    method RemoveVar(pair: nat, ghost k: nat)
      requires Valid() && k < |recs| && pair == |Pack(recs[..k])|
      modifies this`varsz, this`recs, Block()
      ensures Valid() && varp == old(varp) && varp != null
      ensures recs == old(recs)[..k] + old(recs)[k + 1..]
    {
      hide Pack, Text, WellRecs;
      PackAt(recs, k);
      SubsequenceGood(recs, k);
      PackConcat(recs[..k], recs[k + 1..]);
      ghost var before := varp[..varsz];
      Middle(before, Pack(recs[..k]), Text(recs[k]), Pack(recs[k + 1..]));
      var n := StringLength(pair, k);
      var len := n + 1;
      assert varp[..pair] == before[..pair];
      assert varp[pair + len..varsz] == before[pair + len..];
      ShiftDown(varp, pair, pair + len, varsz);
      varsz := varsz - len;
      recs := recs[..k] + recs[k + 1..];
    }

    method GetVar(name: string) returns (value: Option<string>, over: bool)
      requires Valid() && '\0' !in name
      ensures over <==> !Sought(recs, name)
      ensures value == GetRecs(recs, name)
      ensures GoodName(name) && DistinctNames(recs) ==> value == if name in Vars() then Some(Vars()[name]) else None
    {
      hide MapOf, Pack, Text, WellRecs, FirstFound, DistinctNames, GoodName;
      if GoodName(name) && DistinctNames(recs) {
        GetIsLookup(recs, name);
      }
      var pair;
      ghost var k;
      pair, over, k := FindVar(name);
      if pair < 0 {
        return None, over;
      }
      var at := pair;
      RecordChars(recs, k);
      while varp[at] != '='
        invariant pair <= at <= pair + |recs[k].name|
        decreases pair + |recs[k].name| - at
      {
        at := at + 1;
      }
      var n := StringLength(pair, k);
      SliceOfPrefix(varp, varsz, at + 1, pair + n);
      value := Some(varp[at + 1..pair + n]);
    }

    /** Remove the first record that the name finds, if there is one. */
    method DropVar(name: string) returns (over: bool)
      requires Valid() && '\0' !in name
      modifies this`varsz, this`recs, Block()
      ensures over <==> !Sought(old(recs), name)
      ensures Valid() && varp == old(varp)
      ensures recs == DropFound(old(recs), name)
    {
      hide Pack, WellRecs, FirstFound, Sought;
      var pair;
      ghost var k;
      pair, over, k := FindVar(name);
      if pair >= 0 {
        RemoveVar(pair, k);
      }
    }

    /** The allocator's answer is `canAllocate`; when it refuses, the old binding is already gone. */
    method SetVar(name: string, value: string, canAllocate: bool) returns (ok: bool, over: bool)
      requires Valid() && '\0' !in name && '\0' !in value
      modifies this, Block()
      ensures over <==> !Sought(old(recs), name)
      ensures Valid() && fresh(Block() - old(Block()))
      ensures ok == canAllocate
      ensures recs == SetRecs(old(recs), name, value, ok)
      ensures GoodName(name) && old(DistinctNames(recs)) ==>
                DistinctNames(recs) && Vars() == if ok then old(Vars())[name := value] else old(Vars()) - {name}
    {
      hide MapOf, Pack, Text, Line, WellRecs, DropFound, DistinctNames, GoodName, RecOf, Sought;
      SetRecsWell(recs, name, value, canAllocate);
      if GoodName(name) && DistinctNames(recs) {
        SetRecsGood(recs, name, value, canAllocate);
      }
      over := DropVar(name);
      if !canAllocate {
        return false, over;
      }
      var text := name + "=" + value + "\0";
      var newvarp := Reallocate(varp, varsz, text);
      WrittenText(name, value);
      PackOneMore(recs, RecOf(name, value));
      varp, varsz := newvarp, varsz + |text|;
      recs := recs + [RecOf(name, value)];
      assert varp[..varsz] == varp[..];
      ok := true;
    }

    /** The record goes whatever the allocator answers when the block is made smaller. */
    method UnsetVar(name: string, canAllocate: bool) returns (ok: bool, over: bool)
      requires Valid() && '\0' !in name
      modifies this, Block()
      ensures over <==> !Sought(old(recs), name)
      ensures Valid() && fresh(Block() - old(Block()))
      ensures recs == DropFound(old(recs), name)
      ensures ok == (canAllocate || GetRecs(old(recs), name).None? || recs == [])
      ensures GoodName(name) && old(DistinctNames(recs)) ==>
                DistinctNames(recs) && Vars() == old(Vars()) - {name} && ok == UnsetOk(old(Vars()), name, canAllocate)
    {
      hide MapOf, Pack, WellRecs, FirstFound, DistinctNames, GoodName, Sought;
      if GoodName(name) && DistinctNames(recs) {
        UnsetIsRemoval(recs, name, canAllocate);
      }
      var pair;
      ghost var k;
      pair, over, k := FindVar(name);
      if pair < 0 {
        return true, over;
      }
      RemoveVar(pair, k);
      EmptyBlock(recs);
      if varsz == 0 {
        varp := null;
      } else if !canAllocate {
        return false, over;
      } else {
        var newvarp := Reallocate(varp, varsz, "");
        varp := newvarp;
        assert varp[..varsz] == varp[..];
      }
      ok := true;
    }

    /** The string at `at`, as the callback sees it, and its length. */
    method ReadEntry(at: nat, ghost k: nat) returns (entry: string, n: nat)
      requires Valid() && k < |recs| && at == |Pack(recs[..k])|
      ensures |Entries(recs)| == |recs| && entry == Entries(recs)[k]
      ensures at + n + 1 == |Pack(recs[..k + 1])| <= varsz
    {
      hide Pack, Text, WellRecs, Entries;
      n := StringLength(at, k);
      RecordEnds(recs, k);
      EntryAt(recs, k);
      SliceOfPrefix(varp, varsz, at, at + n);
      entry := varp[at..at + n];
    }

    /** Hand each `name=value` string to the callback until it answers something other than zero. */
    method ForEach(cb: seq<string> -> int) returns (visited: seq<string>, ret: int)
      requires Valid()
      ensures visited <= Entries(recs)
      ensures forall j :: 0 < j < |visited| ==> cb(Entries(recs)[..j]) == 0
      ensures ret == if visited == [] then 0 else cb(visited)
      ensures visited != Entries(recs) ==> ret != 0
    {
      hide Pack, Text, WellRecs, Entries;
      visited, ret := [], 0;
      var ptr := 0;
      ghost var k := 0;
      assert recs[..|recs|] == recs;
      EntriesLength(recs);
      PackNone(recs);
      while ptr < varsz
        invariant k <= |recs| && 0 <= ptr == |Pack(recs[..k])| <= varsz
        invariant visited == Entries(recs)[..k]
        invariant forall j :: 0 < j <= k ==> cb(Entries(recs)[..j]) == 0
        invariant ret == 0
        decreases varsz - ptr
      {
        if k == |recs| {
          assert false;
        }
        var entry, n := ReadEntry(ptr, k);
        visited := visited + [entry];
        assert visited == Entries(recs)[..k + 1];
        ret := cb(visited);
        if ret != 0 {
          return;
        }
        ptr := ptr + (n + 1);
        k := k + 1;
      }
      if k < |recs| {
        RecordEnds(recs, k);
        assert false;
      }
    }
  }
}

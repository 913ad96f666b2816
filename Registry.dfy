/** The client registry of app.py (the list kept in registered_clients.json)
    and the unified client list built from it and the client workbooks. The
    registry is the list itself; loading and writing the file are not part
    of this model. */
module Registry {
  import opened Strings
  import opened Results
  import opened Intake

  /** One registry entry: the display name, the CRM id, the registration
      time, the public part of the intake and the stored CRM record. */
  datatype Entry = Entry(
    name: string, sfId: string, registeredAt: string,
    intake: Record, sfRecord: map<string, string>)

  // ---------------------------------------------------------------------------
  // Saving and looking up entries
  // ---------------------------------------------------------------------------

  /** The same name up to ASCII case. */
  predicate SameName(a: string, b: string) {
    Lower(a) == Lower(b)
  }

  /** The intake without its internal keys (those starting with "__"). */
  function PublicIntake(intake: Record): (r: Record)
    ensures forall k :: k in r <==> k in intake && !StartsWith(k, "__")
    ensures forall k :: k in r ==> r[k] == intake[k]
  {
    map k | k in intake && !StartsWith(k, "__") :: intake[k]
  }

  /** The entry _save_to_registry writes; the time is a parameter. */
  function NewEntry(name: string, sfId: string, registeredAt: string,
                    intake: Record, sfRecord: map<string, string>): Entry
  {
    Entry(name, sfId, registeredAt, PublicIntake(intake), sfRecord)
  }

  /** The entries whose name differs from `name` in more than case, in order. */
  function WithoutName(reg: seq<Entry>, name: string): (r: seq<Entry>)
    ensures |r| <= |reg|
  {
    if reg == [] then []
    else (if SameName(reg[0].name, name) then [] else [reg[0]]) + WithoutName(reg[1..], name)
  }

  /** The registry after saving an entry: every entry of the same name (in any
      case) is dropped and the new entry goes last. */
  function Save(reg: seq<Entry>, e: Entry): (r: seq<Entry>)
    ensures r != [] && r[|r| - 1] == e
  {
    WithoutName(reg, e.name) + [e]
  }

  /** _registry_entry: the first entry whose name matches in any case. */
  function Lookup(reg: seq<Entry>, name: string): (r: Option<Entry>)
    ensures r.Some? ==> r.value in reg && SameName(r.value.name, name)
    ensures r.Some? ==> exists i :: 0 <= i < |reg| && reg[i] == r.value
                          && forall j :: 0 <= j < i ==> !SameName(reg[j].name, name)
  {
    if reg == [] then None
    else if SameName(reg[0].name, name) then Some(reg[0])
    else Lookup(reg[1..], name)
  }

  /** _registry_names */
  function Names(reg: seq<Entry>): (r: seq<string>)
    ensures |r| == |reg| && forall i :: 0 <= i < |reg| ==> r[i] == reg[i].name
  {
    seq(|reg|, i requires 0 <= i < |reg| => reg[i].name)
  }

  /** Lookup finds nothing exactly when no entry carries the name. */
  lemma {:induction false} LookupNone(reg: seq<Entry>, name: string)
    ensures Lookup(reg, name).None? <==> forall i :: 0 <= i < |reg| ==> !SameName(reg[i].name, name)
  {
    if reg != [] {
      LookupNone(reg[1..], name);
      assert forall i :: 1 <= i < |reg| ==> reg[i] == reg[1..][i - 1];
    }
  }

  /** An entry is kept by WithoutName exactly when its name differs. */
  lemma {:induction false} WithoutNameMembers(reg: seq<Entry>, name: string, e: Entry)
    ensures e in WithoutName(reg, name) <==> e in reg && !SameName(e.name, name)
  {
    if reg != [] {
      WithoutNameMembers(reg[1..], name, e);
      assert reg == [reg[0]] + reg[1..];
    }
  }

  /** Removing one name leaves the lookup of every other name as it was. */
  lemma {:induction false} WithoutNameLookup(reg: seq<Entry>, name: string, other: string)
    requires !SameName(other, name)
    ensures Lookup(WithoutName(reg, name), other) == Lookup(reg, other)
  {
    if reg != [] {
      WithoutNameLookup(reg[1..], name, other);
      var rest := WithoutName(reg[1..], name);
      if !SameName(reg[0].name, name) {
        assert WithoutName(reg, name) == [reg[0]] + rest;
        assert ([reg[0]] + rest)[1..] == rest;
      } else {
        assert WithoutName(reg, name) == rest;
        assert !SameName(reg[0].name, other);
      }
    }
  }

  /** After saving, looking up the saved name (in any case) gives the new entry. */
  lemma SaveThenLookup(reg: seq<Entry>, e: Entry, name: string)
    requires SameName(name, e.name)
    ensures Lookup(Save(reg, e), name) == Some(e)
  {
    var kept := WithoutName(reg, e.name);
    forall i | 0 <= i < |kept|
      ensures !SameName(kept[i].name, name)
    {
      WithoutNameMembers(reg, e.name, kept[i]);
    }
    LookupAppend(kept, e, name);
  }

  /** Lookup in a list with one entry appended. */
  lemma {:induction false} LookupAppend(reg: seq<Entry>, e: Entry, name: string)
    requires forall i :: 0 <= i < |reg| ==> !SameName(reg[i].name, name)
    requires SameName(e.name, name)
    ensures Lookup(reg + [e], name) == Some(e)
  {
    if reg != [] {
      assert (reg + [e])[1..] == reg[1..] + [e];
      LookupAppend(reg[1..], e, name);
    }
  }

  /** Saving leaves the lookup of every other name unchanged. */
  lemma SaveKeepsOthers(reg: seq<Entry>, e: Entry, name: string)
    requires !SameName(name, e.name)
    ensures Lookup(Save(reg, e), name) == Lookup(reg, name)
  {
    WithoutNameLookup(reg, e.name, name);
    LookupSkipsLast(WithoutName(reg, e.name), e, name);
  }

  /** An appended entry of another name does not change a lookup. */
  lemma {:induction false} LookupSkipsLast(reg: seq<Entry>, e: Entry, name: string)
    requires !SameName(e.name, name)
    ensures Lookup(reg + [e], name) == Lookup(reg, name)
  {
    if reg == [] {
      assert ([e])[1..] == [];
    } else {
      assert (reg + [e])[1..] == reg[1..] + [e];
      LookupSkipsLast(reg[1..], e, name);
    }
  }

  /** No two entries share a name up to case. */
  predicate Unique(reg: seq<Entry>) {
    forall i, j :: 0 <= i < j < |reg| ==> !SameName(reg[i].name, reg[j].name)
  }

  /** Saving keeps the registry free of duplicate names, and it grows by at
      most one entry. */
  lemma SaveKeepsUnique(reg: seq<Entry>, e: Entry)
    requires Unique(reg)
    ensures Unique(Save(reg, e)) && |Save(reg, e)| <= |reg| + 1
  {
    var kept := WithoutName(reg, e.name);
    WithoutNameUnique(reg, e.name);
    forall i | 0 <= i < |kept|
      ensures !SameName(kept[i].name, e.name)
    {
      WithoutNameMembers(reg, e.name, kept[i]);
    }
  }

  /** WithoutName of a registry without duplicates has none either. */
  lemma {:induction false} WithoutNameUnique(reg: seq<Entry>, name: string)
    requires Unique(reg)
    ensures Unique(WithoutName(reg, name))
  {
    if reg != [] {
      WithoutNameUnique(reg[1..], name);
      var rest := WithoutName(reg[1..], name);
      forall i | 0 <= i < |rest|
        ensures !SameName(reg[0].name, rest[i].name)
      {
        WithoutNameMembers(reg[1..], name, rest[i]);
        var k :| 0 <= k < |reg[1..]| && reg[1..][k] == rest[i];
        assert reg[k + 1] == rest[i];
      }
    }
  }

  /** Saving the same entry twice is the same as saving it once. */
  lemma SaveIdempotent(reg: seq<Entry>, e: Entry)
    ensures Save(Save(reg, e), e) == Save(reg, e)
  {
    var kept := WithoutName(reg, e.name);
    forall i | 0 <= i < |kept|
      ensures !SameName(kept[i].name, e.name)
    {
      WithoutNameMembers(reg, e.name, kept[i]);
    }
    WithoutNameNone(kept, e.name);
    WithoutNameAppend(kept, e, e.name);
  }

  /** WithoutName keeps a list none of whose names match. */
  lemma {:induction false} WithoutNameNone(reg: seq<Entry>, name: string)
    requires forall i :: 0 <= i < |reg| ==> !SameName(reg[i].name, name)
    ensures WithoutName(reg, name) == reg
  {
    if reg != [] {
      WithoutNameNone(reg[1..], name);
    }
  }

  lemma {:induction false} WithoutNameAppend(reg: seq<Entry>, e: Entry, name: string)
    ensures WithoutName(reg + [e], name) == WithoutName(reg, name) + WithoutName([e], name)
  {
    if reg != [] {
      assert (reg + [e])[1..] == reg[1..] + [e];
      WithoutNameAppend(reg[1..], e, name);
    }
  }

  // ---------------------------------------------------------------------------
  // The unified client list
  // ---------------------------------------------------------------------------

  /** The lower-cased names of a list. */
  function LowerSet(names: seq<string>): set<string> {
    set i | 0 <= i < |names| :: Lower(names[i])
  }

  /** The names with only the first spelling of each name (up to case) kept,
      in order of first appearance. */
  function Dedup(names: seq<string>): (r: seq<string>)
    ensures LowerSet(r) == LowerSet(names)
    ensures forall i, j :: 0 <= i < j < |r| ==> Lower(r[i]) != Lower(r[j])
    ensures forall i :: 0 <= i < |r| ==> r[i] in names
  {
    if names == [] then []
    else
      var prev := Dedup(names[..|names| - 1]);
      var n := names[|names| - 1];
      LowerSetSnoc(names[..|names| - 1], n);
      if Lower(n) in LowerSet(prev) then prev
      else
        LowerSetSnoc(prev, n);
        prev + [n]
  }

  lemma LowerSetSnoc(names: seq<string>, n: string)
    ensures LowerSet(names + [n]) == LowerSet(names) + {Lower(n)}
  {
    var s := names + [n];
    assert forall i :: 0 <= i < |names| ==> s[i] == names[i];
    assert s[|names|] == n;
  }

  /** The first name of a list that matches `low` once lower-cased. */
  function FirstSpelling(names: seq<string>, low: string): Option<string> {
    if names == [] then None
    else
      var earlier := FirstSpelling(names[..|names| - 1], low);
      if earlier.Some? then earlier
      else if Lower(names[|names| - 1]) == low then Some(names[|names| - 1])
      else None
  }

  /** Each kept name is the first spelling of its name in the input. */
  lemma {:induction false} DedupKeepsFirstSpelling(names: seq<string>, i: nat)
    requires i < |Dedup(names)|
    ensures FirstSpelling(names, Lower(Dedup(names)[i])) == Some(Dedup(names)[i])
  {
    var init := names[..|names| - 1];
    var prev := Dedup(init);
    var n := names[|names| - 1];
    if i < |prev| {
      assert Dedup(names)[i] == prev[i];
      DedupKeepsFirstSpelling(init, i);
    } else {
      assert Dedup(names) == prev + [n] && Dedup(names)[i] == n;
      FirstSpellingNone(init, Lower(n));
    }
  }

  /** No first spelling exists when no name matches. */
  lemma {:induction false} FirstSpellingNone(names: seq<string>, low: string)
    requires low !in LowerSet(names)
    ensures FirstSpelling(names, low).None?
  {
    if names != [] {
      LowerSetSnoc(names[..|names| - 1], names[|names| - 1]);
      assert names[..|names| - 1] + [names[|names| - 1]] == names;
      FirstSpellingNone(names[..|names| - 1], low);
    }
  }

  /** Lexicographic order on code points, as Python compares strings. */
  predicate LexLe(a: string, b: string) {
    a == [] || (b != [] && (a[0] < b[0] || (a[0] == b[0] && LexLe(a[1..], b[1..]))))
  }

  lemma {:induction false} LexLeTotal(a: string, b: string)
    ensures LexLe(a, b) || LexLe(b, a)
  {
    if a != [] && b != [] && a[0] == b[0] {
      LexLeTotal(a[1..], b[1..]);
    }
  }

  predicate Sorted(s: seq<string>) {
    forall i :: 0 <= i < |s| - 1 ==> LexLe(s[i], s[i + 1])
  }

  /** x put before the first element it does not exceed. */
  function Insert(x: string, s: seq<string>): (r: seq<string>)
    ensures multiset(r) == multiset(s) + multiset{x}
    ensures |r| == |s| + 1 && (r[0] == x || (s != [] && r[0] == s[0]))
  {
    if s == [] || LexLe(x, s[0]) then [x] + s
    else
      assert s == [s[0]] + s[1..];
      [s[0]] + Insert(x, s[1..])
  }

  /** sorted(names), by insertion. */
  function Sort(s: seq<string>): (r: seq<string>)
    ensures multiset(r) == multiset(s)
  {
    if s == [] then []
    else
      assert s == [s[0]] + s[1..];
      Insert(s[0], Sort(s[1..]))
  }

  lemma {:induction false} InsertSorted(x: string, s: seq<string>)
    requires Sorted(s)
    ensures Sorted(Insert(x, s))
  {
    if s != [] && !LexLe(x, s[0]) {
      InsertSorted(x, s[1..]);
      LexLeTotal(x, s[0]);
      var r := Insert(x, s[1..]);
      assert Insert(x, s) == [s[0]] + r;
    }
  }

  /** The sorted list is ordered and holds the same names. */
  lemma {:induction false} SortSorted(s: seq<string>)
    ensures Sorted(Sort(s)) && multiset(Sort(s)) == multiset(s)
  {
    if s != [] {
      SortSorted(s[1..]);
      InsertSorted(s[0], Sort(s[1..]));
    }
  }

  /** _all_known_clients: the registry names then the workbook names, the
      first spelling of each name kept, then sorted. */
  method AllKnownClients(registryNames: seq<string>, excelNames: seq<string>)
    returns (r: seq<string>)
    ensures r == Sort(Dedup(registryNames + excelNames))
  {
    var all := registryNames + excelNames;
    var seen: set<string> := {};
    var names: seq<string> := [];
    for i := 0 to |all|
      invariant names == Dedup(all[..i])
      invariant seen == LowerSet(names)
    {
      var n := all[i];
      assert all[..i + 1][..i] == all[..i];
      if Lower(n) !in seen {
        seen := seen + {Lower(n)};
        LowerSetSnoc(names, n);
        names := names + [n];
      }
    }
    assert all[..|all|] == all;
    r := Sort(names);
  }

  /** The known-client list is sorted, has one spelling per name, and holds
      every registered or workbook name up to case. */
  lemma AllKnownClientsSpec(registryNames: seq<string>, excelNames: seq<string>)
    ensures var r := Sort(Dedup(registryNames + excelNames));
      && Sorted(r)
      && multiset(r) == multiset(Dedup(registryNames + excelNames))
      && LowerSet(r) == LowerSet(registryNames + excelNames)
  {
    var d := Dedup(registryNames + excelNames);
    SortSorted(d);
    SameLowerSet(Sort(d), d);
  }

  /** Rearranging names keeps the set of their lower-cased forms. */
  lemma SameLowerSet(a: seq<string>, b: seq<string>)
    requires multiset(a) == multiset(b)
    ensures LowerSet(a) == LowerSet(b)
  {
    forall x | x in LowerSet(a) ensures x in LowerSet(b) {
      var i :| 0 <= i < |a| && Lower(a[i]) == x;
      assert a[i] in multiset(b);
      var j :| 0 <= j < |b| && b[j] == a[i];
    }
    forall x | x in LowerSet(b) ensures x in LowerSet(a) {
      var j :| 0 <= j < |b| && Lower(b[j]) == x;
      assert b[j] in multiset(a);
      var i :| 0 <= i < |a| && a[i] == b[j];
    }
  }

  /** _registered_without_data: the registered names, in order, that have no
      workbook of the same name up to case. */
  function WithoutData(registryNames: seq<string>, excelNames: seq<string>): (r: seq<string>)
    ensures forall n :: n in r <==> n in registryNames && Lower(n) !in LowerSet(excelNames)
    ensures |r| <= |registryNames|
  {
    if registryNames == [] then []
    else
      var n := registryNames[0];
      assert registryNames == [n] + registryNames[1..];
      (if Lower(n) in LowerSet(excelNames) then [] else [n]) + WithoutData(registryNames[1..], excelNames)
  }
}

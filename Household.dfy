/** The household side of app.py: the display name of a party, the merge of
    the parsed parties into one intake record (primary holder, spouse,
    numbered children), the beneficiary notes built from it, and the
    registration that hands it to the CRM. */
module Household {
  import opened Strings
  import opened Decimal
  import opened Results
  import opened Intake
  import Crm

  // ---------------------------------------------------------------------------
  // _full_name
  // ---------------------------------------------------------------------------

  /** The non-empty strings of a list, in order. */
  function NonEmptyParts(parts: seq<string>): seq<string> {
    if parts == [] then []
    else (if parts[0] != "" then [parts[0]] else []) + NonEmptyParts(parts[1..])
  }

  /** The parts kept are exactly the non-empty ones. */
  lemma {:induction false} NonEmptyPartsKept(parts: seq<string>)
    ensures var r := NonEmptyParts(parts);
      && (forall i :: 0 <= i < |r| ==> r[i] != "" && r[i] in parts)
      && (forall i :: 0 <= i < |parts| && parts[i] != "" ==> parts[i] in r)
  {
    if parts != [] {
      NonEmptyPartsKept(parts[1..]);
      var r := NonEmptyParts(parts);
      var rest := NonEmptyParts(parts[1..]);
      forall i | 0 <= i < |r| ensures r[i] != "" && r[i] in parts {
        if parts[0] != "" && i == 0 {
        } else {
          var j := if parts[0] != "" then i - 1 else i;
          assert r[i] == rest[j];
          assert rest[j] in parts[1..];
        }
      }
      forall i | 0 <= i < |parts| && parts[i] != "" ensures parts[i] in r {
        if i > 0 {
          assert parts[i] == parts[1..][i - 1];
          assert parts[i] in rest;
        }
      }
    }
  }

  /** A single part is kept exactly when it is non-empty. */
  lemma NonEmptyPartsOne(p: string)
    ensures NonEmptyParts([p]) == if p != "" then [p] else []
  {
    assert [p][1..] == [];
  }

  /** The filter keeps order and multiplicity: it distributes over
      concatenation. */
  lemma {:induction false} NonEmptyPartsAppend(a: seq<string>, b: seq<string>)
    ensures NonEmptyParts(a + b) == NonEmptyParts(a) + NonEmptyParts(b)
  {
    if a == [] {
      assert a + b == b;
    } else {
      assert (a + b)[0] == a[0];
      assert (a + b)[1..] == a[1..] + b;
      NonEmptyPartsAppend(a[1..], b);
    }
  }

  /** _full_name: the non-empty First Name, Middle Initial and Last Name
      joined by single spaces, then trimmed. */
  function FullName(c: Record): (r: string)
    ensures Strip(r) == r
  {
    StripIdempotent(Join(" ", NonEmptyParts([Get(c, "First Name"), Get(c, "Middle Initial"), Get(c, "Last Name")])));
    Strip(Join(" ", NonEmptyParts([Get(c, "First Name"), Get(c, "Middle Initial"), Get(c, "Last Name")])))
  }

  /** Trimmed parts stay trimmed, and the kept ones are non-empty. */
  lemma {:induction false} NonEmptyPartsStripped(parts: seq<string>)
    requires forall i :: 0 <= i < |parts| ==> IsStripped(parts[i])
    ensures forall i :: 0 <= i < |NonEmptyParts(parts)| ==>
      NonEmptyParts(parts)[i] != [] && IsStripped(NonEmptyParts(parts)[i])
  {
    if parts != [] {
      NonEmptyPartsStripped(parts[1..]);
    }
  }

  /** With trimmed name fields, _full_name is the non-empty ones among First
      Name, Middle Initial and Last Name, in that order, joined by single
      spaces. */
  lemma FullNameOfStrippedParts(c: Record)
    requires IsStripped(Get(c, "First Name")) && IsStripped(Get(c, "Middle Initial"))
    requires IsStripped(Get(c, "Last Name"))
    ensures FullName(c) == Join(" ", NonEmptyParts([Get(c, "First Name"), Get(c, "Middle Initial"), Get(c, "Last Name")]))
  {
    var parts := [Get(c, "First Name"), Get(c, "Middle Initial"), Get(c, "Last Name")];
    var kept := NonEmptyParts(parts);
    if kept == [] {
      StripOfStripped("");
    } else {
      NonEmptyPartsStripped(parts);
      JoinOfStripped(" ", kept);
      StripOfStripped(Join(" ", kept));
    }
  }

  /** The usual intake path: separate First Name and Last Name and no Middle
      Initial give "First Last". */
  lemma FullNameOfFirstLast(c: Record)
    requires "Middle Initial" !in c
    requires Get(c, "First Name") != "" && IsStripped(Get(c, "First Name"))
    requires Get(c, "Last Name") != "" && IsStripped(Get(c, "Last Name"))
    ensures FullName(c) == Get(c, "First Name") + " " + Get(c, "Last Name")
  {
    var first, last := Get(c, "First Name"), Get(c, "Last Name");
    FullNameOfStrippedParts(c);
    NonEmptyPartsAppend([first], ["", last]);
    NonEmptyPartsAppend([""], [last]);
    NonEmptyPartsOne(first);
    NonEmptyPartsOne("");
    NonEmptyPartsOne(last);
    assert [first, "", last] == [first] + (["" ] + [last]);
    assert NonEmptyParts([first, "", last]) == [first, last];
  }

  /** A full name split by the normalizer and joined again by _full_name is
      the name with its whitespace runs reduced to single spaces. */
  lemma FullNameOfSplitName(out: Record, key: string, val: string)
    requires RuleOf(key) == SplitFullName
    requires "Middle Initial" !in out
    requires 2 <= |Split(Strip(val))| <= 3
    ensures FullName(Step(out, key, val)) == Join(" ", Split(Strip(val)))
  {
    var toks := Split(Strip(val));
    var r := Step(out, key, val);
    var parts := [Get(r, "First Name"), Get(r, "Middle Initial"), Get(r, "Last Name")];
    if |toks| == 2 {
      assert parts == [toks[0], "", toks[1]];
      assert NonEmptyParts(parts) == toks;
    } else {
      assert parts == toks;
      assert toks[0] != "" && toks[1] != "" && toks[2] != "";
      assert NonEmptyParts(parts[2..]) == [toks[2]];
      assert NonEmptyParts(parts[1..]) == toks[1..];
      assert NonEmptyParts(parts) == toks;
    }
    JoinOfStripped(" ", toks) by {
      forall i | 0 <= i < |toks| ensures toks[i] != [] && IsStripped(toks[i]) {
        TokenIsStripped(toks[i]);
      }
    }
    StripOfStripped(Join(" ", toks));
  }

  // ---------------------------------------------------------------------------
  // Household merge
  // ---------------------------------------------------------------------------

  function ChildNameKey(k: nat): string { "Child " + NatToString(k) + " Name" }
  function ChildDobKey(k: nat): string { "Child " + NatToString(k) + " DOB" }

  /** The keys the merge writes never collide with each other. */
  lemma ChildKeysDistinct(a: nat, b: nat)
    ensures ChildNameKey(a) == ChildNameKey(b) ==> a == b
    ensures ChildDobKey(a) == ChildDobKey(b) ==> a == b
    ensures ChildNameKey(a) != ChildDobKey(b)
    ensures ChildNameKey(a) !in {"Spouse Name", "Spouse DOB"} && ChildDobKey(a) !in {"Spouse Name", "Spouse DOB"}
  {
    var x, y := NatToString(a), NatToString(b);
    if ChildNameKey(a) == ChildNameKey(b) {
      assert x == ChildNameKey(a)[6..6 + |x|];
      assert y == ChildNameKey(b)[6..6 + |y|];
      NatToStringInjective(a, b);
    }
    if ChildDobKey(a) == ChildDobKey(b) {
      assert x == ChildDobKey(a)[6..6 + |x|];
      assert y == ChildDobKey(b)[6..6 + |y|];
      NatToStringInjective(a, b);
    }
    var na, db := ChildNameKey(a), ChildDobKey(b);
    assert na[|na| - 1] == 'e' && db[|db| - 1] == 'B';
    assert na[0] == 'C' && ChildDobKey(a)[0] == 'C';
  }

  /** The primary record with each child's name and date of birth added under
      "Child k Name" / "Child k DOB", k counting from 1. */
  function WithChildren(primary: Record, children: seq<Record>): Record {
    if children == [] then primary
    else
      var k := |children|;
      var c := children[k - 1];
      WithChildren(primary, children[..k - 1])[ChildNameKey(k) := FullName(c)][ChildDobKey(k) := Get(c, "Date of Birth")]
  }

  /** The keys the merge writes for children 1..m. */
  function ChildKeys(m: nat): set<string> {
    if m == 0 then {} else ChildKeys(m - 1) + {ChildNameKey(m), ChildDobKey(m)}
  }

  /** A key the merge writes for a household with m children. */
  predicate MergeKey(key: string, m: nat) {
    key == "Spouse Name" || key == "Spouse DOB" || key in ChildKeys(m)
  }

  lemma {:induction false} ChildKeysHas(m: nat, k: nat)
    requires 1 <= k <= m
    ensures ChildNameKey(k) in ChildKeys(m) && ChildDobKey(k) in ChildKeys(m)
  {
    if k < m {
      ChildKeysHas(m - 1, k);
    }
  }

  lemma {:induction false} ChildKeysOnly(m: nat, key: string)
    requires key in ChildKeys(m)
    ensures exists k :: 1 <= k <= m && (key == ChildNameKey(k) || key == ChildDobKey(k))
  {
    if key !in {ChildNameKey(m), ChildDobKey(m)} {
      ChildKeysOnly(m - 1, key);
    }
  }

  /** The intake record of the parsed parties: one party is used as it is;
      with two or more, party 1 becomes the spouse and parties 2.. the
      children of a copy of party 0. No party gives no record. */
  function Household(parties: seq<Record>): (r: Option<Record>)
    ensures r.Some? <==> parties != []
  {
    if |parties| >= 2 then
      var spouse := parties[1];
      var p := parties[0]["Spouse Name" := FullName(spouse)]["Spouse DOB" := Get(spouse, "Date of Birth")];
      Some(WithChildren(p, parties[2..]))
    else if |parties| == 1 then Some(parties[0])
    else None
  }

  lemma {:induction false} WithChildrenKeys(primary: Record, children: seq<Record>)
    ensures WithChildren(primary, children).Keys == primary.Keys + ChildKeys(|children|)
  {
    if children != [] {
      WithChildrenKeys(primary, children[..|children| - 1]);
    }
  }

  lemma {:induction false} WithChildrenKeeps(primary: Record, children: seq<Record>, key: string)
    requires key in primary && key !in ChildKeys(|children|)
    ensures key in WithChildren(primary, children) && WithChildren(primary, children)[key] == primary[key]
  {
    if children != [] {
      WithChildrenKeeps(primary, children[..|children| - 1], key);
    }
  }

  lemma {:induction false} WithChildrenAt(primary: Record, children: seq<Record>, k: nat)
    requires 1 <= k <= |children|
    ensures var r := WithChildren(primary, children);
      && ChildNameKey(k) in r && r[ChildNameKey(k)] == FullName(children[k - 1])
      && ChildDobKey(k) in r && r[ChildDobKey(k)] == Get(children[k - 1], "Date of Birth")
  {
    var m := |children|;
    var c, last := children[k - 1], children[m - 1];
    var prev := WithChildren(primary, children[..m - 1]);
    var nk, dk, nm, dm := ChildNameKey(k), ChildDobKey(k), ChildNameKey(m), ChildDobKey(m);
    WithChildrenSnoc(primary, children);
    assert nm != dm by {
      ChildKeysDistinct(m, m);
    }
    if k < m {
      assert nk != nm && nk != dm && dk != dm && dk != nm by {
        ChildKeysDistinct(k, m);
        ChildKeysDistinct(m, k);
      }
      WithChildrenAt(primary, children[..m - 1], k);
      assert children[..m - 1][k - 1] == c;
      UpdateTwo(prev, nm, FullName(last), dm, Get(last, "Date of Birth"), nk);
      UpdateTwo(prev, nm, FullName(last), dm, Get(last, "Date of Birth"), dk);
    }
  }

  /** The last child is written after the children before it. */
  lemma WithChildrenSnoc(primary: Record, children: seq<Record>)
    requires children != []
    ensures var m := |children|;
      WithChildren(primary, children)
        == WithChildren(primary, children[..m - 1])[ChildNameKey(m) := FullName(children[m - 1])]
             [ChildDobKey(m) := Get(children[m - 1], "Date of Birth")]
  {
  }

  /** Two updates under different keys leave every other key as it was. */
  lemma UpdateTwo(m: Record, a: string, va: string, b: string, vb: string, key: string)
    requires a != b
    ensures var r := m[a := va][b := vb];
      && (key == a ==> key in r && r[key] == va)
      && (key == b ==> key in r && r[key] == vb)
      && (key != a && key != b ==> (key in r <==> key in m) && (key in m ==> r[key] == m[key]))
  {
  }

  /** The merged household: party 0's own fields (except those the merge
      writes), the spouse's full name and date of birth (possibly ""), and
      for every later party k = 1.. in order its full name and date of birth
      as child k. */
  lemma HouseholdFields(parties: seq<Record>)
    requires |parties| >= 2
    ensures Household(parties).Some?
    ensures var h, m := Household(parties).value, |parties| - 2;
      && "Spouse Name" in h && h["Spouse Name"] == FullName(parties[1])
      && "Spouse DOB" in h && h["Spouse DOB"] == Get(parties[1], "Date of Birth")
      && (forall k :: 1 <= k <= m ==>
            && ChildNameKey(k) in h && h[ChildNameKey(k)] == FullName(parties[k + 1])
            && ChildDobKey(k) in h && h[ChildDobKey(k)] == Get(parties[k + 1], "Date of Birth"))
      && (forall key :: key in h <==> key in parties[0] || MergeKey(key, m))
      && (forall key :: key in parties[0] && !MergeKey(key, m) ==> h[key] == parties[0][key])
  {
    var spouse := parties[1];
    var p := parties[0]["Spouse Name" := FullName(spouse)]["Spouse DOB" := Get(spouse, "Date of Birth")];
    var children := parties[2..];
    var m := |children|;
    var h := WithChildren(p, children);
    assert Household(parties) == Some(h);
    assert h.Keys == p.Keys + ChildKeys(m) by {
      WithChildrenKeys(p, children);
    }
    assert "Spouse Name" !in ChildKeys(m) && "Spouse DOB" !in ChildKeys(m) by {
      forall key | key in {"Spouse Name", "Spouse DOB"} ensures key !in ChildKeys(m) {
        if key in ChildKeys(m) {
          ChildKeysOnly(m, key);
          var k :| 1 <= k <= m && (key == ChildNameKey(k) || key == ChildDobKey(k));
          ChildKeysDistinct(k, k);
        }
      }
    }
    assert h["Spouse Name"] == FullName(spouse) && h["Spouse DOB"] == Get(spouse, "Date of Birth") by {
      WithChildrenKeeps(p, children, "Spouse Name");
      WithChildrenKeeps(p, children, "Spouse DOB");
    }
    forall k | 1 <= k <= m
      ensures ChildNameKey(k) in h && h[ChildNameKey(k)] == FullName(parties[k + 1])
      ensures ChildDobKey(k) in h && h[ChildDobKey(k)] == Get(parties[k + 1], "Date of Birth")
    {
      assert children[k - 1] == parties[k + 1];
      WithChildrenAt(p, children, k);
    }
    forall key | key in parties[0] && !MergeKey(key, m) ensures h[key] == parties[0][key] {
      WithChildrenKeeps(p, children, key);
    }
  }

  /** With exactly one party, its record is used unchanged. */
  lemma HouseholdOfOne(parties: seq<Record>)
    requires |parties| == 1
    ensures Household(parties) == Some(parties[0])
  {
  }

  /** The merge as the page runs it: a copy of party 0 updated in place. */
  method ComposeHousehold(parties: seq<Record>) returns (h: Option<Record>)
    ensures h == Household(parties)
  {
    if |parties| >= 2 {
      var primary := parties[0];
      var spouse := parties[1];
      primary := primary["Spouse Name" := FullName(spouse)];
      primary := primary["Spouse DOB" := Get(spouse, "Date of Birth")];
      var children := parties[2..];
      ghost var base := primary;
      var idx := 1;
      while idx <= |children|
        invariant 1 <= idx <= |children| + 1
        invariant primary == WithChildren(base, children[..idx - 1])
      {
        var child := children[idx - 1];
        assert children[..idx][..idx - 1] == children[..idx - 1];
        primary := primary[ChildNameKey(idx) := FullName(child)];
        primary := primary[ChildDobKey(idx) := Get(child, "Date of Birth")];
        idx := idx + 1;
      }
      assert children[..idx - 1] == children;
      h := Some(primary);
    } else if |parties| == 1 {
      h := Some(parties[0]);
    } else {
      h := None;
    }
  }

  // ---------------------------------------------------------------------------
  // Beneficiary notes of _do_register
  // ---------------------------------------------------------------------------

  /** The note of beneficiary i ("1" or "2"), when it has a name. */
  function BeneficiaryPart(intake: Record, i: string): seq<string> {
    var name := Get(intake, "Beneficiary " + i + " Name");
    if name != "" then
      [name + " (" + Get(intake, "Beneficiary " + i + " Rel") + ") " + Get(intake, "Beneficiary " + i + " Pct") + "%"]
    else []
  }

  /** The spouse note, when there is a spouse name. */
  function SpousePart(intake: Record): seq<string> {
    var spouse := Get(intake, "Spouse Name");
    if spouse != "" then ["Spouse: " + spouse + ", DOB " + Get(intake, "Spouse DOB")] else []
  }

  function ChildNote(k: nat, name: string, dob: string): string {
    "Child " + NatToString(k) + ": " + name + (if dob != "" then ", DOB " + dob else "")
  }

  /** The keys "Child j Name" for 1 <= j < k. */
  function ChildNameKeysBelow(k: nat): set<string> {
    if k <= 1 then {} else ChildNameKeysBelow(k - 1) + {ChildNameKey(k - 1)}
  }

  lemma {:induction false} ChildNameKeysBelowSize(k: nat)
    requires k >= 1
    ensures |ChildNameKeysBelow(k)| == k - 1
    ensures forall j :: 1 <= j < k ==> ChildNameKey(j) in ChildNameKeysBelow(k)
  {
    if k > 1 {
      ChildNameKeysBelowSize(k - 1);
      if ChildNameKey(k - 1) in ChildNameKeysBelow(k - 1) {
        ChildNameKeysBelowOnly(k - 1, ChildNameKey(k - 1));
        var j :| 1 <= j < k - 1 && ChildNameKey(k - 1) == ChildNameKey(j);
        ChildKeysDistinct(j, k - 1);
      }
    }
  }

  lemma {:induction false} ChildNameKeysBelowOnly(k: nat, key: string)
    requires key in ChildNameKeysBelow(k)
    ensures exists j :: 1 <= j < k && key == ChildNameKey(j)
  {
    if key != ChildNameKey(k - 1) {
      ChildNameKeysBelowOnly(k - 1, key);
    }
  }

  /** A record holding the keys of children 1..k-1 has at least k-1 keys. */
  lemma ChildRunBound(intake: Record, k: nat)
    requires k >= 1 && forall j :: 1 <= j < k ==> ChildNameKey(j) in intake
    ensures k - 1 <= |intake.Keys|
  {
    var s := ChildNameKeysBelow(k);
    ChildNameKeysBelowSize(k);
    forall key | key in s ensures key in intake.Keys {
      ChildNameKeysBelowOnly(k, key);
    }
    SubsetCard(s, intake.Keys);
  }

  lemma SubsetCard<T>(a: set<T>, b: set<T>)
    requires a <= b
    ensures |a| <= |b|
  {
    assert b == a + (b - a);
  }

  /** The notes of the children numbered from k on, while "Child k Name" is
      present. */
  function ChildNotes(intake: Record, k: nat): seq<string>
    requires k >= 1 && forall j :: 1 <= j < k ==> ChildNameKey(j) in intake
    decreases |intake.Keys| - (k - 1)
  {
    ChildRunBound(intake, k);
    if ChildNameKey(k) in intake then
      ChildRunBound(intake, k + 1);
      [ChildNote(k, intake[ChildNameKey(k)], Get(intake, ChildDobKey(k)))] + ChildNotes(intake, k + 1)
    else []
  }

  /** All beneficiary notes of an intake record, in the order they are built. */
  function BeneficiaryNotes(intake: Record): seq<string> {
    BeneficiaryPart(intake, "1") + BeneficiaryPart(intake, "2") + SpousePart(intake) + ChildNotes(intake, 1)
  }

  /** The loop of _do_register that builds bene_parts. */
  method BuildBeneficiaryNotes(intake: Record) returns (parts: seq<string>)
    ensures parts == BeneficiaryNotes(intake)
  {
    parts := [];
    var ids := ["1", "2"];
    for t := 0 to 2
      invariant parts == if t == 0 then [] else if t == 1 then BeneficiaryPart(intake, "1")
                         else BeneficiaryPart(intake, "1") + BeneficiaryPart(intake, "2")
    {
      var i := ids[t];
      ghost var before := parts;
      var name := Get(intake, "Beneficiary " + i + " Name");
      if name != "" {
        var rel := Get(intake, "Beneficiary " + i + " Rel");
        var pct := Get(intake, "Beneficiary " + i + " Pct");
        parts := parts + [name + " (" + rel + ") " + pct + "%"];
      }
      assert parts == before + BeneficiaryPart(intake, i);
      assert i == if t == 0 then "1" else "2";
    }
    ghost var beneficiaries := parts;
    var spouse := Get(intake, "Spouse Name");
    if spouse != "" {
      parts := parts + ["Spouse: " + spouse + ", DOB " + Get(intake, "Spouse DOB")];
    }
    assert parts == beneficiaries + SpousePart(intake);
    var childIdx := 1;
    while ChildNameKey(childIdx) in intake
      invariant childIdx >= 1 && forall j :: 1 <= j < childIdx ==> ChildNameKey(j) in intake
      invariant parts + ChildNotes(intake, childIdx) == BeneficiaryNotes(intake)
      decreases |intake.Keys| - (childIdx - 1)
    {
      ChildRunBound(intake, childIdx + 1);
      var cn := intake[ChildNameKey(childIdx)];
      var dob := Get(intake, ChildDobKey(childIdx));
      parts := parts + [ChildNote(childIdx, cn, dob)];
      childIdx := childIdx + 1;
    }
  }

  /** No key starting with "B" is one the merge writes. */
  lemma NotMergeKey(key: string, m: nat)
    requires |key| > 0 && key[0] == 'B'
    ensures !MergeKey(key, m)
  {
    if key in ChildKeys(m) {
      ChildKeysOnly(m, key);
      assert false;
    }
  }

  /** The name key of the child after the last is not written by the merge. */
  lemma PastLastChild(m: nat)
    ensures !MergeKey(ChildNameKey(m + 1), m)
  {
    ChildKeysDistinct(m + 1, m + 1);
    if ChildNameKey(m + 1) in ChildKeys(m) {
      ChildKeysOnly(m, ChildNameKey(m + 1));
      var k :| 1 <= k <= m && (ChildNameKey(m + 1) == ChildNameKey(k) || ChildNameKey(m + 1) == ChildDobKey(k));
      ChildKeysDistinct(m + 1, k);
    }
  }

  /** The notes of children j.. of a list, numbered from j. */
  function ChildNoteList(children: seq<Record>, j: nat): seq<string>
    requires j >= 1
    decreases |children| + 1 - j
  {
    if j > |children| then []
    else
      var c := children[j - 1];
      [ChildNote(j, FullName(c), Get(c, "Date of Birth"))] + ChildNoteList(children, j + 1)
  }

  /** The notes of a merged household end with the spouse note (when the
      spouse has a name) and one numbered note per child in party order,
      provided party 0 has no child entry of its own just past the last child. */
  lemma HouseholdNotes(parties: seq<Record>)
    requires |parties| >= 2
    requires ChildNameKey(|parties| - 1) !in parties[0]
    ensures Household(parties).Some?
    ensures var h := Household(parties).value;
      BeneficiaryNotes(h) == BeneficiaryPart(parties[0], "1") + BeneficiaryPart(parties[0], "2")
        + (if FullName(parties[1]) != "" then ["Spouse: " + FullName(parties[1]) + ", DOB " + Get(parties[1], "Date of Birth")] else [])
        + ChildNoteList(parties[2..], 1)
  {
    HouseholdBeneficiary(parties, "1");
    HouseholdBeneficiary(parties, "2");
    HouseholdSpouseNote(parties);
    HouseholdChildNotes(parties);
  }

  /** The merge leaves the beneficiary entries of party 0 as they are. */
  lemma HouseholdBeneficiary(parties: seq<Record>, i: string)
    requires |parties| >= 2 && (i == "1" || i == "2")
    ensures Household(parties).Some?
    ensures BeneficiaryPart(Household(parties).value, i) == BeneficiaryPart(parties[0], i)
  {
    HouseholdFields(parties);
    var m := |parties| - 2;
    NotMergeKey("Beneficiary " + i + " Name", m);
    NotMergeKey("Beneficiary " + i + " Rel", m);
    NotMergeKey("Beneficiary " + i + " Pct", m);
  }

  /** The spouse note of a household names party 1 with its date of birth. */
  lemma HouseholdSpouseNote(parties: seq<Record>)
    requires |parties| >= 2
    ensures Household(parties).Some?
    ensures var spouse := FullName(parties[1]);
      SpousePart(Household(parties).value)
        == if spouse != "" then ["Spouse: " + spouse + ", DOB " + Get(parties[1], "Date of Birth")] else []
  {
    HouseholdFields(parties);
  }

  /** The child notes of a household are those of parties 2.., numbered from 1,
      when party 0 has no child entry just past the last child. */
  lemma HouseholdChildNotes(parties: seq<Record>)
    requires |parties| >= 2
    requires ChildNameKey(|parties| - 1) !in parties[0]
    ensures Household(parties).Some?
    ensures ChildNotes(Household(parties).value, 1) == ChildNoteList(parties[2..], 1)
  {
    HouseholdFields(parties);
    var h, m := Household(parties).value, |parties| - 2;
    PastLastChild(m);
    assert ChildNameKey(m + 1) !in h;
    MergedChildNotes(h, parties[2..], 1);
  }

  /** The child notes of a record holding exactly children 1..m are the
      notes of those children, from child j on. */
  lemma {:induction false} MergedChildNotes(h: Record, children: seq<Record>, j: nat)
    requires 1 <= j <= |children| + 1
    requires forall k :: 1 <= k <= |children| ==>
      && ChildNameKey(k) in h && h[ChildNameKey(k)] == FullName(children[k - 1])
      && ChildDobKey(k) in h && h[ChildDobKey(k)] == Get(children[k - 1], "Date of Birth")
    requires ChildNameKey(|children| + 1) !in h
    ensures forall i :: 1 <= i < j ==> ChildNameKey(i) in h
    ensures ChildNotes(h, j) == ChildNoteList(children, j)
    decreases |children| + 1 - j
  {
    if j <= |children| {
      MergedChildNotes(h, children, j + 1);
    }
  }

  // ---------------------------------------------------------------------------
  // _do_register
  // ---------------------------------------------------------------------------

  /** The arguments _do_register passes to create_salesforce_contact. */
  function RegisterArgs(intake: Record, notes: string): Crm.ContactArgs {
    Crm.ContactArgs(
      Get(intake, "First Name"), Get(intake, "Last Name"), Get(intake, "Email"),
      Get(intake, "Phone"), Get(intake, "Date of Birth"), Get(intake, "Address"),
      Get(intake, "City"), Get(intake, "State"), Get(intake, "ZIP"),
      Get(intake, "Annual Income"), Get(intake, "Employer"), Get(intake, "Occupation"),
      Get(intake, "Risk Tolerance"), Get(intake, "Investment Goal"),
      Get(intake, "Time Horizon (yrs)"), Get(intake, "Est. Net Worth"),
      Get(intake, "Liquid Assets"), Get(intake, "Referral Source"), notes)
  }

  /** _do_register: build the notes, create the contact, and read the stored
      record back by its id. */
  method DoRegister(crm: Crm.MockSalesforce, intake: Record, createdAt: string)
    returns (result: Crm.CreateResult, record: Crm.Fields, parts: seq<string>)
    requires crm.Valid()
    modifies crm
    ensures crm.Valid()
    ensures parts == BeneficiaryNotes(intake)
    ensures result.success && result.id == Crm.ContactId(old(crm.nextSeq)) && result.id !in old(crm.records)
    ensures record == Crm.NewRecord(result.id, createdAt, Crm.ContactFields(RegisterArgs(intake, Join("  |  ", parts))))
    ensures crm.records == old(crm.records)[result.id := record]
    ensures crm.nextSeq == old(crm.nextSeq) + 1
  {
    parts := BuildBeneficiaryNotes(intake);
    var args := RegisterArgs(intake, Join("  |  ", parts));
    result := Crm.CreateSalesforceContact(crm, args, createdAt);
    record := crm.records[result.id];
    assert record == Crm.NewRecord(result.id, createdAt, Crm.ContactFields(args));
  }

  /** The contact stored for an intake record carries its canonical fields
      under their CRM names and the beneficiary notes as its description. */
  lemma RegisteredRecord(intake: Record, id: string, createdAt: string)
    ensures var r := Crm.NewRecord(id, createdAt, Crm.ContactFields(RegisterArgs(intake, Join("  |  ", BeneficiaryNotes(intake)))));
      && Crm.ArgsOf(r) == RegisterArgs(intake, Join("  |  ", BeneficiaryNotes(intake)))
      && r["Id"] == id && r["RecordType"] == "WealthManagementClient"
  {
    Crm.StoredContactRoundTrip(RegisterArgs(intake, Join("  |  ", BeneficiaryNotes(intake))), id, createdAt);
  }
}

/** The CRM side of wealth_agent.py: the in-memory contact store, the
    renaming of canonical intake fields to CRM field names, and the search
    for a client's data file by name. */
module Crm {
  import opened Strings
  import opened Decimal

  /** A CRM record or argument dict (a Python dict of str to str). */
  type Fields = map<string, string>

  // ---------------------------------------------------------------------------
  // MockSalesforce
  // ---------------------------------------------------------------------------

  /** The sequence number the store starts from. */
  const FirstSeq: nat := 1000

  /** The id of the contact created at sequence number n: "003" followed by
      n zero-padded to 13 digits. */
  function ContactId(n: nat): (id: string)
    ensures StartsWith(id, "003") && AllDigits(id)
    ensures EndsWith(id, NatToString(n))
  {
    assert ("003" + ZeroPad(n, 13))[3..] == ZeroPad(n, 13);
    "003" + ZeroPad(n, 13)
  }

  /** Below 10^13 an id is "003" and exactly 13 digits. */
  lemma ContactIdLength(n: nat)
    requires n < 10000000000000
    ensures |ContactId(n)| == 16
  {
    assert Pow10(13) == 10000000000000;
    NatToStringLength(n, 13);
  }

  /** The digits after the prefix read back as the sequence number. */
  lemma ContactIdValue(n: nat)
    ensures |ContactId(n)| >= 3 && ValueOf(ContactId(n)[3..]) == n
  {
    assert ContactId(n)[3..] == ZeroPad(n, 13);
    ZeroPadValue(n, 13);
  }

  /** Different sequence numbers give different ids. */
  lemma ContactIdInjective(a: nat, b: nat)
    ensures ContactId(a) == ContactId(b) ==> a == b
  {
    if ContactId(a) == ContactId(b) {
      ContactIdValue(a);
      ContactIdValue(b);
    }
  }

  /** The stored record: the generated fields, then every supplied field
      (a supplied field of the same name wins, as in a dict display with **). */
  function NewRecord(id: string, createdAt: string, fields: Fields): (r: Fields)
    ensures r.Keys == fields.Keys + {"Id", "RecordType", "CreatedDate"}
    ensures forall k :: k in fields ==> r[k] == fields[k]
    ensures "Id" !in fields ==> r["Id"] == id
    ensures "RecordType" !in fields ==> r["RecordType"] == "WealthManagementClient"
  {
    map["Id" := id, "RecordType" := "WealthManagementClient", "CreatedDate" := createdAt] + fields
  }

  /** What create_contact returns. */
  datatype CreateResult = CreateResult(success: bool, id: string, errors: seq<string>)

  /** MockSalesforce: a sequence counter and the records stored by id. */
  class MockSalesforce {
    var records: map<string, Fields>
    var nextSeq: nat

    /** Every stored id was issued for an earlier sequence number. */
    ghost predicate Valid()
      reads this
    {
      && nextSeq >= FirstSeq
      && forall id :: id in records ==> exists k :: FirstSeq <= k < nextSeq && id == ContactId(k)
    }

    /** The class attributes as the program starts. */
    constructor ()
      ensures Valid()
      ensures records == map[] && nextSeq == FirstSeq
    {
      records := map[];
      nextSeq := FirstSeq;
    }

    /** create_contact: issue the next id, store the record under it and
      report success. The creation timestamp is a parameter. */
    method CreateContact(fields: Fields, createdAt: string) returns (result: CreateResult)
      requires Valid()
      modifies this
      ensures Valid()
      ensures nextSeq == old(nextSeq) + 1
      ensures result == CreateResult(true, ContactId(old(nextSeq)), [])
      ensures result.id !in old(records)
      ensures records == old(records)[result.id := NewRecord(result.id, createdAt, fields)]
    {
      var id := ContactId(nextSeq);
      if id in records {
        var k :| FirstSeq <= k < nextSeq && id == ContactId(k);
        ContactIdInjective(k, nextSeq);
        assert false;
      }
      nextSeq := nextSeq + 1;
      records := records[id := NewRecord(id, createdAt, fields)];
      result := CreateResult(true, id, []);
    }
  }

  /** When every stored id comes from an earlier sequence number, the next
      id differs from each of them. */
  lemma CreatedIdIsNew(crmRecords: map<string, Fields>, seqNo: nat, id: string)
    requires forall s :: s in crmRecords ==> exists k :: FirstSeq <= k < seqNo && s == ContactId(k)
    requires id in crmRecords
    ensures id != ContactId(seqNo)
  {
    var k :| FirstSeq <= k < seqNo && id == ContactId(k);
    ContactIdInjective(k, seqNo);
  }

  // ---------------------------------------------------------------------------
  // create_salesforce_contact
  // ---------------------------------------------------------------------------

  /** The arguments of create_salesforce_contact; the last two default to "". */
  datatype ContactArgs = ContactArgs(
    firstName: string, lastName: string, email: string, phone: string,
    dateOfBirth: string, mailingStreet: string, mailingCity: string,
    mailingState: string, mailingZip: string, annualIncome: string,
    employer: string, occupation: string, riskTolerance: string,
    investmentGoal: string, timeHorizonYears: string, netWorth: string,
    liquidAssets: string, leadSource: string := "", notes: string := "")

  /** The CRM field names, in argument order. */
  const CrmKeys: seq<string> := [
    "FirstName", "LastName", "Email", "Phone", "Birthdate",
    "MailingStreet", "MailingCity", "MailingState", "MailingPostalCode",
    "Annual_Income__c", "AccountName", "Title", "Risk_Tolerance__c",
    "Investment_Goal__c", "Time_Horizon__c", "Net_Worth__c",
    "Liquid_Assets__c", "LeadSource", "Description"]

  /** The fields create_salesforce_contact hands to create_contact. */
  function ContactFields(a: ContactArgs): (r: Fields)
  {
    map[
      "FirstName" := a.firstName, "LastName" := a.lastName,
      "Email" := a.email, "Phone" := a.phone, "Birthdate" := a.dateOfBirth,
      "MailingStreet" := a.mailingStreet, "MailingCity" := a.mailingCity,
      "MailingState" := a.mailingState, "MailingPostalCode" := a.mailingZip,
      "Annual_Income__c" := a.annualIncome, "AccountName" := a.employer,
      "Title" := a.occupation, "Risk_Tolerance__c" := a.riskTolerance,
      "Investment_Goal__c" := a.investmentGoal, "Time_Horizon__c" := a.timeHorizonYears,
      "Net_Worth__c" := a.netWorth, "Liquid_Assets__c" := a.liquidAssets,
      "LeadSource" := a.leadSource, "Description" := a.notes]
  }

  /** A field of a CRM record, "" when absent. */
  function At(r: Fields, k: string): string {
    if k in r then r[k] else ""
  }

  /** Reading the arguments back from a CRM record, field by field. */
  function ArgsOf(r: Fields): ContactArgs {
    ContactArgs(
      At(r, "FirstName"), At(r, "LastName"), At(r, "Email"), At(r, "Phone"), At(r, "Birthdate"),
      At(r, "MailingStreet"), At(r, "MailingCity"), At(r, "MailingState"), At(r, "MailingPostalCode"),
      At(r, "Annual_Income__c"), At(r, "AccountName"), At(r, "Title"), At(r, "Risk_Tolerance__c"),
      At(r, "Investment_Goal__c"), At(r, "Time_Horizon__c"), At(r, "Net_Worth__c"),
      At(r, "Liquid_Assets__c"), At(r, "LeadSource"), At(r, "Description"))
  }

  /** No two arguments share a CRM field: every argument can be read back. */
  lemma ContactFieldsRoundTrip(a: ContactArgs)
    ensures ArgsOf(ContactFields(a)) == a
  {
  }

  /** The stored contact record carries every argument under its CRM name. */
  lemma StoredContactRoundTrip(a: ContactArgs, id: string, createdAt: string)
    ensures var r := NewRecord(id, createdAt, ContactFields(a));
      && ArgsOf(r) == a
      && r["Id"] == id && r["RecordType"] == "WealthManagementClient"
  {
    var f := ContactFields(a);
    ContactFieldsRoundTrip(a);
    assert "Id" !in f && "RecordType" !in f;
  }

  /** create_salesforce_contact, before its JSON encoding of the result. */
  method CreateSalesforceContact(crm: MockSalesforce, args: ContactArgs, createdAt: string)
    returns (result: CreateResult)
    requires crm.Valid()
    modifies crm
    ensures crm.Valid()
    ensures result == CreateResult(true, ContactId(old(crm.nextSeq)), [])
    ensures result.id !in old(crm.records)
    ensures crm.nextSeq == old(crm.nextSeq) + 1
    ensures crm.records == old(crm.records)[result.id := NewRecord(result.id, createdAt, ContactFields(args))]
  {
    result := crm.CreateContact(ContactFields(args), createdAt);
  }

  // ---------------------------------------------------------------------------
  // Client file names and find_client_file
  // ---------------------------------------------------------------------------

  /** The length of the leading run of non-word characters. */
  function NonWordRun(s: string): (n: nat)
    ensures n <= |s| && (forall i :: 0 <= i < n ==> !IsWordChar(s[i])) && (n < |s| ==> IsWordChar(s[n]))
  {
    if s != [] && !IsWordChar(s[0]) then 1 + NonWordRun(s[1..]) else 0
  }

  /** The leading run of non-word characters removed. */
  function DropNonWord(s: string): (r: string)
    ensures |r| <= |s| && (r == [] || IsWordChar(r[0]))
    ensures r == s[|s| - |r|..]
    ensures forall i :: 0 <= i < |s| - |r| ==> !IsWordChar(s[i])
  {
    s[NonWordRun(s)..]
  }

  /** re.sub(r"[^\w]+", "_", s): each maximal run of non-word characters
      becomes one "_". */
  function CollapseNonWord(s: string): (r: string)
    ensures forall i :: 0 <= i < |r| ==> IsWordChar(r[i])
    decreases |s|
  {
    if s == [] then []
    else if IsWordChar(s[0]) then [s[0]] + CollapseNonWord(s[1..])
    else
      var rest := DropNonWord(s);
      assert |rest| < |s|;
      "_" + CollapseNonWord(rest)
  }

  /** Every character of the substitution's result is "_" or a character of
      the text. */
  lemma {:induction false} CollapseNonWordFrom(s: string)
    ensures forall c :: c in CollapseNonWord(s) ==> c == '_' || c in s
    decreases |s|
  {
    if s != [] {
      if IsWordChar(s[0]) {
        CollapseNonWordFrom(s[1..]);
        assert CollapseNonWord(s) == [s[0]] + CollapseNonWord(s[1..]);
        assert forall c :: c in s[1..] ==> c in s;
      } else {
        var rest := DropNonWord(s);
        CollapseNonWordFrom(rest);
        assert CollapseNonWord(s) == "_" + CollapseNonWord(rest);
        assert forall c :: c in rest ==> c in s;
      }
    }
  }

  /** The number of "_" characters s starts with. */
  function LeadingUnderscores(s: string): (n: nat)
    ensures n <= |s| && (forall k :: 0 <= k < n ==> s[k] == '_') && (n < |s| ==> s[n] != '_')
  {
    if s != [] && s[0] == '_' then 1 + LeadingUnderscores(s[1..]) else 0
  }

  /** The number of "_" characters s ends with. */
  function TrailingUnderscores(s: string): (n: nat)
    ensures n <= |s| && (forall k :: |s| - n <= k < |s| ==> s[k] == '_') && (n < |s| ==> s[|s| - n - 1] != '_')
  {
    if s != [] && s[|s| - 1] == '_' then 1 + TrailingUnderscores(s[..|s| - 1]) else 0
  }

  /** s.strip("_"): the slice left after the leading and trailing "_" are
      removed; it neither starts nor ends with "_". */
  function StripUnderscores(s: string): (r: string)
    ensures r == [] || (r[0] != '_' && r[|r| - 1] != '_')
    ensures var i := LeadingUnderscores(s);
      i + |r| <= |s| && r == s[i..i + |r|] && forall k :: i + |r| <= k < |s| ==> s[k] == '_'
  {
    var t := s[LeadingUnderscores(s)..];
    t[..|t| - TrailingUnderscores(t)]
  }

  /** The client-file stem of a name: lower-cased, non-word runs turned into
      "_", and "_" stripped from both ends. */
  function SlugStem(name: string): (r: string)
    ensures forall i :: 0 <= i < |r| ==> IsWordChar(r[i]) && !IsUpper(r[i])
    ensures r == [] || (r[0] != '_' && r[|r| - 1] != '_')
  {
    var low := Lower(name);
    var collapsed := CollapseNonWord(low);
    CollapseKeepsLower(low);
    StripKeepsChars(collapsed);
    StripUnderscores(collapsed)
  }

  /** strip("_") keeps only characters of the text. */
  lemma StripKeepsChars(s: string)
    requires forall i :: 0 <= i < |s| ==> IsWordChar(s[i]) && !IsUpper(s[i])
    ensures var r := StripUnderscores(s); forall i :: 0 <= i < |r| ==> IsWordChar(r[i]) && !IsUpper(r[i])
  {
    var r := StripUnderscores(s);
    var n := LeadingUnderscores(s);
    forall i | 0 <= i < |r|
      ensures IsWordChar(r[i]) && !IsUpper(r[i])
    {
      assert r[i] == s[n + i];
    }
  }

  /** The substitution brings in no upper-case letter. */
  lemma CollapseKeepsLower(s: string)
    requires forall i :: 0 <= i < |s| ==> !IsUpper(s[i])
    ensures forall i :: 0 <= i < |CollapseNonWord(s)| ==> IsWordChar(CollapseNonWord(s)[i]) && !IsUpper(CollapseNonWord(s)[i])
  {
    var r := CollapseNonWord(s);
    CollapseNonWordFrom(s);
    forall i | 0 <= i < |r|
      ensures IsWordChar(r[i]) && !IsUpper(r[i])
    {
      assert r[i] in r;
      if r[i] != '_' {
        var j :| 0 <= j < |s| && s[j] == r[i];
      }
    }
  }

  /** The client-file name of a name (_name_to_filename, and the slug of
      find_client_file). */
  function ClientFileName(name: string): string {
    SlugStem(name) + ".xlsx"
  }

  lemma {:induction false} LowerOfLower(s: string)
    requires forall i :: 0 <= i < |s| ==> !IsUpper(s[i])
    ensures Lower(s) == s
  {
  }

  lemma {:induction false} CollapseOfWordChars(s: string)
    requires forall i :: 0 <= i < |s| ==> IsWordChar(s[i])
    ensures CollapseNonWord(s) == s
    decreases |s|
  {
    if s != [] {
      CollapseOfWordChars(s[1..]);
    }
  }

  predicate AllWordChars(s: string) { forall i :: 0 <= i < |s| ==> IsWordChar(s[i]) }
  predicate NoWordChars(s: string) { forall i :: 0 <= i < |s| ==> !IsWordChar(s[i]) }

  /** A run of non-word characters is dropped up to the next word character. */
  lemma {:induction false} DropNonWordRun(w: string, b: string)
    requires NoWordChars(w) && (b == [] || IsWordChar(b[0]))
    ensures DropNonWord(w + b) == b
    decreases |w|
  {
    NonWordRunOf(w, b);
    assert (w + b)[|w|..] == b;
  }

  lemma {:induction false} NonWordRunOf(w: string, b: string)
    requires NoWordChars(w) && (b == [] || IsWordChar(b[0]))
    ensures NonWordRun(w + b) == |w|
    decreases |w|
  {
    if w != [] {
      assert (w + b)[0] == w[0];
      assert (w + b)[1..] == w[1..] + b;
      NonWordRunOf(w[1..], b);
    } else {
      assert w + b == b;
    }
  }

  /** re.sub(r"[^\w]+", "_", ...) keeps a run of word characters and turns the
      maximal non-word run after it into one "_". With CollapseOfWordChars
      this fixes the result on every string, run by run. */
  lemma {:induction false} CollapseRuns(a: string, w: string, b: string)
    requires AllWordChars(a) && w != [] && NoWordChars(w) && (b == [] || IsWordChar(b[0]))
    ensures CollapseNonWord(a + w + b) == a + "_" + CollapseNonWord(b)
    decreases |a|
  {
    if a == [] {
      assert a + w + b == w + b;
      CollapseRunHead(w, b);
    } else {
      WordCharsTail(a);
      CollapseRuns(a[1..], w, b);
      assert a == [a[0]] + a[1..];
      CollapseRunsStep(a[0], a[1..], w, b);
    }
  }

  lemma WordCharsTail(a: string)
    requires a != [] && AllWordChars(a)
    ensures IsWordChar(a[0]) && AllWordChars(a[1..])
  {
    assert forall i :: 0 <= i < |a| - 1 ==> a[1..][i] == a[i + 1];
  }

  /** One more word character in front of the run is kept in front. */
  lemma CollapseRunsStep(c: char, t: string, w: string, b: string)
    requires IsWordChar(c)
    requires CollapseNonWord(t + w + b) == t + "_" + CollapseNonWord(b)
    ensures CollapseNonWord([c] + t + w + b) == [c] + t + "_" + CollapseNonWord(b)
  {
    assert [c] + t + w + b == [c] + (t + w + b);
    CollapseWordHead(c, t + w + b);
    assert [c] + (t + "_" + CollapseNonWord(b)) == [c] + t + "_" + CollapseNonWord(b);
  }

  /** A word character is kept as it is. */
  lemma CollapseWordHead(c: char, x: string)
    requires IsWordChar(c)
    ensures CollapseNonWord([c] + x) == [c] + CollapseNonWord(x)
  {
    assert ([c] + x)[1..] == x;
  }

  /** A non-word run at the front becomes one "_". */
  lemma CollapseRunHead(w: string, b: string)
    requires w != [] && NoWordChars(w) && (b == [] || IsWordChar(b[0]))
    ensures CollapseNonWord(w + b) == "_" + CollapseNonWord(b)
  {
    var s := w + b;
    assert s[0] == w[0];
    DropNonWordRun(w, b);
  }

  /** Lower-case letters and digits only. */
  predicate LowerAlnum(s: string) { forall i :: 0 <= i < |s| ==> IsLowerLetter(s[i]) || IsDigit(s[i]) }

  /** Text without "_" at either end is its own strip("_"). */
  lemma StripUnderscoresClean(s: string)
    requires s != [] && s[0] != '_' && s[|s| - 1] != '_'
    ensures StripUnderscores(s) == s
  {
    assert LeadingUnderscores(s) == 0;
    assert TrailingUnderscores(s) == 0;
  }

  /** One "_" at each end of a clean text is stripped. */
  lemma StripUnderscoresFramed(a: string)
    requires a != [] && a[0] != '_' && a[|a| - 1] != '_'
    ensures StripUnderscores("_" + a + "_") == a
  {
    var s := "_" + a + "_";
    assert s[1..] == a + "_";
    assert LeadingUnderscores(a + "_") == 0;
    assert LeadingUnderscores(s) == 1;
    var t := s[1..];
    assert t[..|t| - 1] == a;
    assert TrailingUnderscores(a) == 0;
    assert TrailingUnderscores(t) == 1;
  }

  /** The slug of two words joined by any run of separators is word_word. */
  lemma SlugStemJoin(a: string, w: string, b: string)
    requires a != [] && b != [] && LowerAlnum(a) && LowerAlnum(b)
    requires w != [] && NoWordChars(w)
    ensures SlugStem(a + w + b) == a + "_" + b
  {
    LowerOfLower(a + w + b);
    CollapseOfWordChars(b);
    CollapseRuns(a, w, b);
    var joined := a + "_" + b;
    assert joined[0] == a[0] && joined[|joined| - 1] == b[|b| - 1];
    StripUnderscoresClean(joined);
  }

  /** A word framed by separators has no upper-case letter to lower. */
  lemma LowerFramed(a: string, w: string)
    requires LowerAlnum(a) && NoWordChars(w)
    ensures Lower(w + a + w) == w + a + w
  {
    var s := w + a + w;
    forall i | 0 <= i < |s|
      ensures !IsUpper(s[i])
    {
      if i < |w| || i >= |w| + |a| {
        assert s[i] in w;
      } else {
        assert s[i] == a[i - |w|];
      }
    }
    LowerOfLower(s);
  }

  /** Lower-case letters and digits are word characters. */
  lemma LowerAlnumWord(a: string)
    requires LowerAlnum(a)
    ensures AllWordChars(a)
  {
    forall i | 0 <= i < |a| ensures IsWordChar(a[i]) {
      assert IsLowerLetter(a[i]) || IsDigit(a[i]);
    }
  }

  /** A trailing separator run becomes one "_". */
  lemma CollapseTrailing(a: string, w: string)
    requires AllWordChars(a) && w != [] && NoWordChars(w)
    ensures CollapseNonWord(a + w) == a + "_"
  {
    var e: string := [];
    assert a + w + e == a + w;
    CollapseRuns(a, w, e);
    assert CollapseNonWord(e) == e;
  }

  /** A leading separator run becomes one "_". */
  lemma CollapseLeading(w: string, x: string)
    requires w != [] && NoWordChars(w) && x != [] && IsWordChar(x[0])
    ensures CollapseNonWord(w + x) == "_" + CollapseNonWord(x)
  {
    var e: string := [];
    assert AllWordChars(e);
    assert e + w + x == w + x;
    CollapseRuns(e, w, x);
  }

  /** The separator runs around a word become one "_" each. */
  lemma CollapseFramed(a: string, w: string)
    requires a != [] && LowerAlnum(a)
    requires w != [] && NoWordChars(w)
    ensures CollapseNonWord(w + a + w) == "_" + a + "_"
  {
    var x := a + w;
    LowerAlnumWord(a);
    assert x[0] == a[0];
    CollapseTrailing(a, w);
    assert w + a + w == w + x;
    CollapseLeading(w, x);
  }

  /** Separators before and after a word leave no trace in its slug. */
  lemma SlugStemFramed(a: string, w: string)
    requires a != [] && LowerAlnum(a)
    requires w != [] && NoWordChars(w)
    ensures SlugStem(w + a + w) == a
  {
    LowerFramed(a, w);
    CollapseFramed(a, w);
    assert a[0] != '_' && a[|a| - 1] != '_';
    StripUnderscoresFramed(a);
  }

  /** A stem is its own stem: slugging is idempotent, so the stem of a file
      saved under a client's name leads back to the same file. */
  lemma SlugStemIdempotent(name: string)
    ensures SlugStem(SlugStem(name)) == SlugStem(name)
  {
    var s := SlugStem(name);
    LowerOfLower(s);
    CollapseOfWordChars(s);
  }

  /** Names that differ only in letter case have the same file. */
  lemma SlugStemIgnoresCase(a: string, b: string)
    requires Lower(a) == Lower(b)
    ensures ClientFileName(a) == ClientFileName(b)
  {
  }

  /** Two file names with the same extension are equal exactly when their
      stems are. */
  lemma SameFileName(a: string, b: string)
    ensures a + ".xlsx" == b + ".xlsx" <==> a == b
  {
    if a + ".xlsx" == b + ".xlsx" {
      assert |a| == |b|;
      assert a == (a + ".xlsx")[..|a|];
      assert b == (b + ".xlsx")[..|b|];
    }
  }

  /** The words of a name for partial matching: lower-cased, with every
      character other than a-z, 0-9 and ' ' removed, then split. */
  function KeepAlnumSpace(s: string): (r: string)
    ensures |r| <= |s|
    ensures forall i :: 0 <= i < |r| ==> IsLowerLetter(r[i]) || IsDigit(r[i]) || r[i] == ' '
  {
    if s == [] then []
    else
      var head := if IsLowerLetter(s[0]) || IsDigit(s[0]) || s[0] == ' ' then [s[0]] else [];
      head + KeepAlnumSpace(s[1..])
  }

  /** Filtering works character by character: it distributes over concatenation. */
  lemma {:induction false} KeepAlnumSpaceAppend(a: string, b: string)
    ensures KeepAlnumSpace(a + b) == KeepAlnumSpace(a) + KeepAlnumSpace(b)
    decreases |a|
  {
    if a != [] {
      assert (a + b)[1..] == a[1..] + b;
      KeepAlnumSpaceAppend(a[1..], b);
    } else {
      assert a + b == b;
    }
  }

  /** One character is kept exactly when it is a-z, 0-9 or a space. */
  lemma KeepAlnumSpaceChar(c: char)
    ensures KeepAlnumSpace([c]) == if IsLowerLetter(c) || IsDigit(c) || c == ' ' then [c] else []
  {
    assert [c][1..] == [];
  }

  function NameWords(name: string): seq<string> {
    Split(KeepAlnumSpace(Lower(name)))
  }

  /** Every word of the name occurs in the stem. */
  predicate PartialMatch(words: seq<string>, stem: string) {
    forall k :: 0 <= k < |words| ==> Contains(stem, words[k])
  }

  /** The display names of the files when none matches ("_" read as " "). */
  function Available(stems: seq<string>): (r: seq<string>)
    ensures |r| == |stems|
    ensures forall j :: 0 <= j < |r| ==> r[j] == ReplaceChar(stems[j], '_', ' ')
  {
    seq(|stems|, j requires 0 <= j < |stems| => ReplaceChar(stems[j], '_', ' '))
  }

  datatype FindResult = Found(stem: string) | NotFound(available: seq<string>)

  /** find_client_file over the stems of the *.xlsx files in the clients
      directory: the file whose name is the client's file name; else the
      first file whose stem contains every word of the name; else the list
      of available names. */
  method FindClientFile(name: string, stems: seq<string>) returns (r: FindResult)
    ensures SlugStem(name) in stems ==> r == Found(SlugStem(name))
    ensures SlugStem(name) !in stems && r.Found? ==>
      exists j :: 0 <= j < |stems| && stems[j] == r.stem && PartialMatch(NameWords(name), stems[j])
        && forall l :: 0 <= l < j ==> !PartialMatch(NameWords(name), stems[l])
    ensures r.NotFound? <==>
      SlugStem(name) !in stems && forall j :: 0 <= j < |stems| ==> !PartialMatch(NameWords(name), stems[j])
    ensures r.NotFound? ==> r.available == Available(stems)
  {
    var stem := SlugStem(name);
    var exact := HasStem(stems, stem);
    if exact {
      return Found(stem);
    }
    var words := NameWords(name);
    var j := FirstPartialMatch(words, stems);
    if j < |stems| {
      return Found(stems[j]);
    }
    return NotFound(Available(stems));
  }

  /** The first loop of find_client_file: is some file named stem + ".xlsx"? */
  method HasStem(stems: seq<string>, stem: string) returns (found: bool)
    ensures found <==> stem in stems
  {
    var j := 0;
    while j < |stems|
      invariant 0 <= j <= |stems|
      invariant stem !in stems[..j]
    {
      SameFileName(stems[j], stem);
      if stems[j] + ".xlsx" == stem + ".xlsx" {
        return true;
      }
      assert stems[..j + 1] == stems[..j] + [stems[j]];
      j := j + 1;
    }
    assert stems[..j] == stems;
    return false;
  }

  /** The second loop of find_client_file: the index of the first stem that
      contains every word, or |stems| when none does. */
  method FirstPartialMatch(words: seq<string>, stems: seq<string>) returns (j: nat)
    ensures j <= |stems|
    ensures j < |stems| ==> PartialMatch(words, stems[j])
    ensures forall l :: 0 <= l < j ==> !PartialMatch(words, stems[l])
  {
    j := 0;
    while j < |stems|
      invariant j <= |stems|
      invariant forall l :: 0 <= l < j ==> !PartialMatch(words, stems[l])
    {
      if PartialMatch(words, stems[j]) {
        return j;
      }
      j := j + 1;
    }
  }
}

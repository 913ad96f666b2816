/** The intake side of app.py: reading the intake sheet into per-party
    records, normalizing their labels to canonical field names, composing a
    household, building the beneficiary notes, the client registry list and
    the client-file name. */
module Intake {
  import opened Strings
  import opened Decimal

  /** A canonical person record (a Python dict of str to str). */
  type Record = map<string, string>

  /** dict.get(key, "") */
  function Get(m: Record, key: string): (r: string)
    ensures key in m ==> r == m[key]
    ensures key !in m ==> r == ""
  {
    if key in m then m[key] else ""
  }

  /** dict.setdefault(key, value) */
  function SetDefault(m: Record, key: string, value: string): (r: Record)
    ensures key in r && r.Keys == m.Keys + {key}
    ensures key in m ==> r == m
    ensures key !in m ==> r == m[key := value]
  {
    if key in m then m else m[key := value]
  }

  /** A raw party record: a dict that remembers the order its labels were
      first inserted, as Python dicts do. */
  datatype RawRecord = RawRecord(labels: seq<string>, values: map<string, string>)
  {
    ghost predicate Valid() {
      && (forall i, j :: 0 <= i < j < |labels| ==> labels[i] != labels[j])
      && (forall k :: k in values <==> k in labels)
    }

    /** dict.items(), in insertion order. */
    function Items(): (r: seq<(string, string)>)
      requires Valid()
      ensures |r| == |labels|
      ensures forall i :: 0 <= i < |r| ==> r[i] == (labels[i], values[labels[i]])
    {
      seq(|labels|, i requires 0 <= i < |labels| => (labels[i], values[labels[i]]))
    }

    /** d[label] = value: a new label goes last, an existing one keeps its place. */
    function Put(key: string, value: string): (r: RawRecord)
      requires Valid()
      ensures r.Valid()
      ensures r.values == values[key := value]
      ensures key in values ==> r.labels == labels
      ensures key !in values ==> r.labels == labels + [key]
    {
      if key in values then RawRecord(labels, values[key := value])
      else RawRecord(labels + [key], values[key := value])
    }
  }

  const EmptyRaw := RawRecord([], map[])

  // ---------------------------------------------------------------------------
  // _parse_date
  // ---------------------------------------------------------------------------

  /** _parse_date: the trimmed value, cut at its first whitespace when it contains a space. */
  function ParseDate(val: string): (r: string)
    ensures ' ' !in r && r <= Strip(val)
  {
    var s := Strip(val);
    if ' ' in s then
      SplitEmpty(s);
      assert !IsSpace(s[0]);
      assert TrimLeft(s) == s;
      assert IsSpace(' ');
      Split(s)[0]
    else s
  }

  /** The parsed date is the date portion of the trimmed value: when the value
      contains a space, the non-empty run before its first whitespace; otherwise
      the trimmed value unchanged. */
  lemma ParseDateSpec(val: string)
    ensures var s, r := Strip(val), ParseDate(val);
      && (' ' in s ==> IsToken(r) && |r| < |s| && r == s[..|r|] && IsSpace(s[|r|]))
      && (' ' !in s ==> r == s)
  {
    var s := Strip(val);
    if ' ' in s {
      SplitEmpty(s);
      assert !IsSpace(s[0]);
      assert TrimLeft(s) == s;
      var i :| 0 <= i < |s| && s[i] == ' ';
      assert IsSpace(s[i]);
      assert TokenLength(s) <= i;
    }
  }

  /** A date that has already been parsed parses to itself. */
  lemma ParseDateIdempotent(val: string)
    ensures ParseDate(ParseDate(val)) == ParseDate(val)
  {
    var s := Strip(val);
    ParseDateSpec(val);
    if ' ' in s {
      var r := ParseDate(val);
      TokenIsStripped(r);
    } else {
      StripIdempotent(val);
    }
  }

  // ---------------------------------------------------------------------------
  // _normalize_fields
  // ---------------------------------------------------------------------------

  /** What one raw label does to the canonical record, in the order the rules
      are tried; the first matching rule decides. */
  datatype Rule =
    | SplitFullName          // a full name is split into First/Middle Initial/Last
    | Assign(target: string) // the trimmed value overwrites a canonical key
    | BirthDate              // the date portion overwrites "Date of Birth"
    | Objective              // defaults "Investment Goal" and "Risk Tolerance"
    | Advisor                // defaults "Referral Source"
    | AppendNote             // accumulates into "Notes"
    | Passthrough            // kept under the trimmed label as written

  /** One test of the if/elif chain on the trimmed, lower-cased label kl:
      kl equals a word, kl contains a word, or kl contains both words. */
  datatype Test = Is(word: string) | Has(word: string) | HasBoth(a: string, b: string)

  predicate Passes(t: Test, kl: string) {
    match t
    case Is(w) => kl == w
    case Has(w) => Contains(kl, w)
    case HasBoth(a, b) => Contains(kl, a) && Contains(kl, b)
  }

  /** A branch condition: any of its tests passes (`or`, `in (...)`, `any(...)`). */
  predicate AnyPasses(tests: seq<Test>, kl: string) {
    tests != [] && (Passes(tests[0], kl) || AnyPasses(tests[1..], kl))
  }

  /** A condition holds exactly when one of its tests passes. */
  lemma {:induction false} AnyPassesSome(tests: seq<Test>, kl: string)
    ensures AnyPasses(tests, kl) <==> exists j :: 0 <= j < |tests| && Passes(tests[j], kl)
  {
    if tests != [] {
      AnyPassesSome(tests[1..], kl);
      assert forall j :: 1 <= j < |tests| ==> tests[j] == tests[1..][j - 1];
    }
  }

  /** The if/elif chain as an ordered list of (condition, rule) branches. */
  datatype Chain = End | Try(tests: seq<Test>, rule: Rule, rest: Chain)

  // The branches of _normalize_fields in source order, in four groups: names
  // and birth date, contact details, finances, and the investor profile with
  // the remaining catch-alls. Each group continues with the chain it is given.

  /** The whole if/elif chain. */
  function Rules(): Chain {
    PersonRules(ContactRules(FinanceRules(ProfileRules())))
  }

  function PersonRules(rest: Chain): Chain {
    Try([HasBoth("first", "last"), Is("full name"), Is("name")], SplitFullName,
    Try([Is("first name"), Is("firstname"), Is("first")], Assign("First Name"),
    Try([Is("last name"), Is("lastname"), Is("last")], Assign("Last Name"),
    Try([Is("dob"), Is("date of birth"), Is("birthdate"), Is("birth date")], BirthDate,
    rest))))
  }
  function ContactRules(rest: Chain): Chain {
    Try([Is("address")], Assign("Address"),
    Try([Is("city")], Assign("City"),
    Try([Is("state")], Assign("State"),
    Try([Is("zip"), Is("zip code"), Is("postal code")], Assign("ZIP"),
    Try([Is("phone")], Assign("Phone"),
    Try([Is("email")], Assign("Email"),
    rest))))))
  }
  function FinanceRules(rest: Chain): Chain {
    Try([Has("annual income")], Assign("Annual Income"),
    Try([Has("net worth")], Assign("Est. Net Worth"),
    Try([Has("liquid")], Assign("Liquid Assets"),
    Try([Is("employer"), Is("company"), Is("firm")], Assign("Employer"),
    Try([Has("occupation"), Has("title"), Has("job title")], Assign("Occupation"),
    rest)))))
  }
  function ProfileRules(): Chain {
    Try([Has("investment objective"), Has("objective"), Has("investment goal")], Objective,
    Try([HasBoth("risk", "tolerance")], Assign("Risk Tolerance"),
    Try([Has("time horizon"), Has("horizon")], Assign("Time Horizon (yrs)"),
    Try([Has("referral"), Has("lead source"), Has("referred"), Has("source")], Assign("Referral Source"),
    Try([Has("advisor")], Advisor,
    Try([Has("note"), Has("account")], AppendNote,
    Try([Has("was")], Assign("WAS"),
    Try([Has("fee")], Assign("Fee"),
    End))))))))
  }

  /** The first branch whose condition holds decides; none holding keeps the label. */
  function FirstRule(c: Chain, kl: string): Rule {
    match c
    case End => Passthrough
    case Try(tests, rule, rest) => if AnyPasses(tests, kl) then rule else FirstRule(rest, kl)
  }

  /** Some branch of c with rule r has a condition that holds for kl. */
  predicate Selects(c: Chain, kl: string, r: Rule) {
    c.Try? && ((c.rule == r && AnyPasses(c.tests, kl)) || Selects(c.rest, kl, r))
  }

  /** Some branch of c has rule r. */
  predicate Mentions(c: Chain, r: Rule) {
    c.Try? && (c.rule == r || Mentions(c.rest, r))
  }

  /** The rule chosen is the default, or that of a branch whose condition holds. */
  lemma {:induction false} FirstRuleSelected(c: Chain, kl: string)
    ensures FirstRule(c, kl) == Passthrough || Selects(c, kl, FirstRule(c, kl))
  {
    if c.Try? && !AnyPasses(c.tests, kl) {
      FirstRuleSelected(c.rest, kl);
    }
  }

  lemma {:induction false} SelectsMentions(c: Chain, kl: string, r: Rule)
    requires Selects(c, kl, r)
    ensures Mentions(c, r)
  {
    if c.rule != r || !AnyPasses(c.tests, kl) {
      SelectsMentions(c.rest, kl, r);
    }
  }

  /** The rule _normalize_fields applies to a trimmed, lower-cased label. */
  function Classify(kl: string): Rule {
    FirstRule(Rules(), kl)
  }

  /** The rule that applies to a raw label as written. */
  function RuleOf(key: string): Rule {
    Classify(Lower(Strip(key)))
  }

  /** A full name: two or more words give first, last and, for exactly three,
      the middle initial; a single word is the first name. */
  function SplitName(out: Record, v: string): Record {
    var parts := Split(v);
    if |parts| >= 2 then
      var named := out["First Name" := parts[0]]["Last Name" := parts[|parts| - 1]];
      if |parts| == 3 then named["Middle Initial" := parts[1]] else named
    else out["First Name" := v]
  }

  /** A note is appended to the notes so far, two spaces apart. */
  function AddNote(out: Record, v: string): Record {
    var existing := Get(out, "Notes");
    out["Notes" := if existing != "" then Strip(existing + "  " + v) else v]
  }

  /** What a rule does to the record, given the trimmed label k and the
      trimmed value v. */
  function Apply(out: Record, rule: Rule, k: string, v: string): Record {
    match rule
    case SplitFullName => SplitName(out, v)
    case Assign(target) => out[target := v]
    case BirthDate => out["Date of Birth" := ParseDate(v)]
    case Objective => SetDefault(SetDefault(out, "Investment Goal", v), "Risk Tolerance", v)
    case Advisor => SetDefault(out, "Referral Source", v)
    case AppendNote => AddNote(out, v)
    case Passthrough => out[k := v]
  }

  /** The effect of one (label, value) pair of the raw record on the output. */
  function Step(out: Record, key: string, val: string): Record {
    Apply(out, RuleOf(key), Strip(key), Strip(val))
  }

  /** The canonical record of a raw record's items, processed in order. */
  function Normalize(items: seq<(string, string)>): Record
  {
    if items == [] then map[]
    else
      var last := items[|items| - 1];
      Step(Normalize(items[..|items| - 1]), last.0, last.1)
  }

  // Properties of the normalizer --------------------------------------------

  // The rules some literal labels select. The branches a label fails are
  // ruled out by a character the label lacks, or by length.

  lemma ClassifyFullName(kl: string)
    requires kl == "full name"
    ensures Classify(kl) == SplitFullName
  {
    var c := Rules();
    assert c.tests[1..][0] == Is("full name");
    assert AnyPasses(c.tests[1..], kl);
  }

  lemma ClassifyDob(kl: string)
    requires kl == "dob"
    ensures Classify(kl) == BirthDate
  {
    MissingCharNotContained(kl, "first", 'f');
    var c := Rules();
    Skip(c, kl);
    Skip(c.rest, kl);
    Skip(c.rest.rest, kl);
  }

  lemma ClassifyDateOfBirth(kl: string)
    requires kl == "date of birth"
    ensures Classify(kl) == BirthDate
  {
    MissingCharNotContained(kl, "first", 's');
    var c := Rules();
    Skip(c, kl);
    Skip(c.rest, kl);
    Skip(c.rest.rest, kl);
  }

  lemma ClassifyBirthdate(kl: string)
    requires kl == "birthdate"
    ensures Classify(kl) == BirthDate
  {
    MissingCharNotContained(kl, "first", 'f');
    var c := Rules();
    Skip(c, kl);
    Skip(c.rest, kl);
    Skip(c.rest.rest, kl);
  }

  lemma ClassifyBirthSpaceDate(kl: string)
    requires kl == "birth date"
    ensures Classify(kl) == BirthDate
  {
    MissingCharNotContained(kl, "first", 'f');
    var c := Rules();
    Skip(c, kl);
    Skip(c.rest, kl);
    Skip(c.rest.rest, kl);
  }

  /** A branch with another rule leaves it to the rest of the chain whether
      the chain has rule r. */
  lemma MentionsSkip(c: Chain, r: Rule)
    requires c.Try? && c.rule != r
    ensures Mentions(c, r) == Mentions(c.rest, r)
  {
  }

  // Neither the date-of-birth rule nor an assignment to "Notes" is in the
  // contact, finance or profile group.

  lemma ContactMentions(rest: Chain, r: Rule)
    requires r == BirthDate || r == Assign("Notes")
    ensures Mentions(ContactRules(rest), r) == Mentions(rest, r)
  {
    var c := ContactRules(rest);
    MentionsSkip(c, r);
    MentionsSkip(c.rest, r);
    MentionsSkip(c.rest.rest, r);
    MentionsSkip(c.rest.rest.rest, r);
    MentionsSkip(c.rest.rest.rest.rest, r);
    MentionsSkip(c.rest.rest.rest.rest.rest, r);
  }

  lemma FinanceMentions(rest: Chain, r: Rule)
    requires r == BirthDate || r == Assign("Notes")
    ensures Mentions(FinanceRules(rest), r) == Mentions(rest, r)
  {
    var c := FinanceRules(rest);
    MentionsSkip(c, r);
    MentionsSkip(c.rest, r);
    MentionsSkip(c.rest.rest, r);
    MentionsSkip(c.rest.rest.rest, r);
    MentionsSkip(c.rest.rest.rest.rest, r);
  }

  lemma ProfileMentions(r: Rule)
    requires r == BirthDate || r == Assign("Notes")
    ensures !Mentions(ProfileRules(), r)
  {
    var c := ProfileRules();
    MentionsSkip(c, r);
    MentionsSkip(c.rest, r);
    MentionsSkip(c.rest.rest, r);
    MentionsSkip(c.rest.rest.rest, r);
    MentionsSkip(c.rest.rest.rest.rest, r);
    MentionsSkip(c.rest.rest.rest.rest.rest, r);
    MentionsSkip(c.rest.rest.rest.rest.rest.rest, r);
    MentionsSkip(c.rest.rest.rest.rest.rest.rest.rest, r);
  }

  /** No branch after the date-of-birth branch has its rule. */
  lemma BirthDateNotLater()
    ensures !Mentions(ContactRules(FinanceRules(ProfileRules())), BirthDate)
  {
    ProfileMentions(BirthDate);
    FinanceMentions(ProfileRules(), BirthDate);
    ContactMentions(FinanceRules(ProfileRules()), BirthDate);
  }

  /** Only the four spellings pass the date-of-birth branch's condition. */
  lemma BirthDateTests(kl: string)
    requires AnyPasses([Is("dob"), Is("date of birth"), Is("birthdate"), Is("birth date")], kl)
    ensures kl in {"dob", "date of birth", "birthdate", "birth date"}
  {
    var dob := [Is("dob"), Is("date of birth"), Is("birthdate"), Is("birth date")];
    AnyPassesSome(dob, kl);
    var j :| 0 <= j < |dob| && Passes(dob[j], kl);
    assert kl == dob[j].word;
  }

  /** Exactly four spellings of a trimmed, lower-cased label select the
      date-of-birth rule. */
  lemma BirthDateRule(kl: string)
    ensures Classify(kl) == BirthDate <==> kl in {"dob", "date of birth", "birthdate", "birth date"}
  {
    if kl == "dob" {
      ClassifyDob(kl);
    } else if kl == "date of birth" {
      ClassifyDateOfBirth(kl);
    } else if kl == "birthdate" {
      ClassifyBirthdate(kl);
    } else if kl == "birth date" {
      ClassifyBirthSpaceDate(kl);
    } else {
      var c := Rules();
      FirstRuleSelected(c, kl);
      if Selects(c, kl, BirthDate) {
        assert Selects(c.rest, kl, BirthDate);
        assert Selects(c.rest.rest, kl, BirthDate);
        var d := c.rest.rest.rest;
        assert Selects(d, kl, BirthDate);
        BirthDateNotLater();
        if Selects(d.rest, kl, BirthDate) {
          SelectsMentions(d.rest, kl, BirthDate);
        }
        BirthDateTests(kl);
      }
    }
  }

  lemma ProfileRulesNotes()
    ensures FirstRule(ProfileRules(), "notes") == AppendNote
  {
    var c := ProfileRules();
    ProfileHeadNotes();
    Skip(c.rest.rest.rest, "notes");
    Skip(c.rest.rest.rest.rest, "notes");
    assert OccursAt("notes", "note", 0);
    assert AnyPasses(c.rest.rest.rest.rest.rest.tests, "notes");
  }

  /** "notes" fails the objective, risk and horizon branches. */
  lemma ProfileHeadNotes()
    ensures FirstRule(ProfileRules(), "notes") == FirstRule(ProfileRules().rest.rest.rest, "notes")
  {
    var c := ProfileRules();
    MissingCharNotContained("notes", "risk", 'r');
    Skip(c, "notes");
    Skip(c.rest, "notes");
    Skip(c.rest.rest, "notes");
  }

  /** A branch whose condition fails passes the label on to the next one. */
  lemma Skip(c: Chain, kl: string)
    requires c.Try? && !AnyPasses(c.tests, kl)
    ensures FirstRule(c, kl) == FirstRule(c.rest, kl)
  {
  }

  lemma FinanceRulesNotes(rest: Chain)
    ensures FirstRule(FinanceRules(rest), "notes") == FirstRule(rest, "notes")
  {
    var c := FinanceRules(rest);
    MissingCharNotContained("notes", "title", 'i');
    Skip(c, "notes");
    Skip(c.rest, "notes");
    Skip(c.rest.rest, "notes");
    Skip(c.rest.rest.rest, "notes");
    Skip(c.rest.rest.rest.rest, "notes");
  }

  lemma ContactRulesNotes(rest: Chain)
    ensures FirstRule(ContactRules(rest), "notes") == FirstRule(rest, "notes")
  {
    var c := ContactRules(rest);
    Skip(c, "notes");
    Skip(c.rest, "notes");
    Skip(c.rest.rest, "notes");
    Skip(c.rest.rest.rest, "notes");
    Skip(c.rest.rest.rest.rest, "notes");
    Skip(c.rest.rest.rest.rest.rest, "notes");
  }

  lemma PersonRulesNotes(rest: Chain)
    ensures FirstRule(PersonRules(rest), "notes") == FirstRule(rest, "notes")
  {
    var c := PersonRules(rest);
    assert !AnyPasses(c.tests, "notes") by {
      MissingCharNotContained("notes", "first", 'f');
    }
    assert !AnyPasses(c.rest.tests, "notes");
    assert !AnyPasses(c.rest.rest.tests, "notes");
    assert !AnyPasses(c.rest.rest.rest.tests, "notes");
    Skip(c.rest.rest.rest, "notes");
    Skip(c.rest.rest, "notes");
    Skip(c.rest, "notes");
    Skip(c, "notes");
  }

  lemma ClassifyNotes()
    ensures Classify("notes") == AppendNote
  {
    var profile := ProfileRules();
    var finance := FinanceRules(profile);
    var contact := ContactRules(finance);
    ProfileRulesNotes();
    FinanceRulesNotes(profile);
    ContactRulesNotes(finance);
    PersonRulesNotes(contact);
  }

  /** Labels that differ only in case and surrounding whitespace have the same
      effect, unless no rule recognizes them (then the label itself is kept). */
  lemma SameLabelSameEffect(out: Record, key1: string, key2: string, val: string)
    requires Lower(Strip(key1)) == Lower(Strip(key2))
    requires RuleOf(key1) != Passthrough
    ensures Step(out, key1, val) == Step(out, key2, val)
  {
  }

  /** A date-of-birth label stores the date portion of its value under "Date of Birth". */
  lemma BirthDateLabel(out: Record, key: string, val: string)
    requires RuleOf(key) == BirthDate
    ensures Step(out, key, val) == out["Date of Birth" := ParseDate(val)]
  {
    StripIdempotent(val);
  }

  /** A full-name label: with two or more tokens the first and last tokens become
      First Name and Last Name, and the middle token becomes Middle Initial only
      when there are exactly three; otherwise the whole trimmed value is the
      First Name. Nothing else changes. */
  lemma FullNameLabel(out: Record, key: string, val: string)
    requires RuleOf(key) == SplitFullName
    ensures var r, toks := Step(out, key, val), Split(Strip(val));
      && "First Name" in r
      && (|toks| >= 2 ==> r["First Name"] == toks[0] && "Last Name" in r && r["Last Name"] == toks[|toks| - 1])
      && (|toks| == 3 ==> "Middle Initial" in r && r["Middle Initial"] == toks[1])
      && (|toks| < 2 ==> r["First Name"] == Strip(val))
      && (|toks| != 3 ==> ("Middle Initial" in r <==> "Middle Initial" in out))
      && (forall k :: k !in {"First Name", "Last Name", "Middle Initial"} ==> (k in r <==> k in out))
      && (forall k :: k in out && k !in {"First Name", "Last Name", "Middle Initial"} ==> r[k] == out[k])
  {
  }

  /** An objective label only fills Investment Goal and Risk Tolerance when they
      are still missing: an earlier value of either is kept. */
  lemma ObjectiveLabel(out: Record, key: string, val: string)
    requires RuleOf(key) == Objective
    ensures var r := Step(out, key, val);
      && r.Keys == out.Keys + {"Investment Goal", "Risk Tolerance"}
      && r["Investment Goal"] == (if "Investment Goal" in out then out["Investment Goal"] else Strip(val))
      && r["Risk Tolerance"] == (if "Risk Tolerance" in out then out["Risk Tolerance"] else Strip(val))
      && (forall k :: k in out && k !in {"Investment Goal", "Risk Tolerance"} ==> r[k] == out[k])
  {
  }

  /** An advisor label only fills a missing Referral Source. */
  lemma AdvisorLabel(out: Record, key: string, val: string)
    requires RuleOf(key) == Advisor
    ensures Step(out, key, val) == if "Referral Source" in out then out else out["Referral Source" := Strip(val)]
  {
  }

  /** A label with no rule is kept under its trimmed text, with its trimmed value. */
  lemma PassthroughLabel(out: Record, key: string, val: string)
    requires RuleOf(key) == Passthrough
    ensures Step(out, key, val) == out[Strip(key) := Strip(val)]
  {
  }

  lemma NormalizeSnoc(items: seq<(string, string)>, key: string, val: string)
    ensures Normalize(items + [(key, val)]) == Step(Normalize(items), key, val)
  {
    assert (items + [(key, val)])[..|items|] == items;
  }

  /** Whatever came before, an objective label never replaces a Risk Tolerance
      already set, while a later risk-tolerance label always does. */
  lemma RiskTolerancePrecedence(items: seq<(string, string)>, key: string, val: string)
    ensures RuleOf(key) == Objective && "Risk Tolerance" in Normalize(items) ==>
      Normalize(items + [(key, val)])["Risk Tolerance"] == Normalize(items)["Risk Tolerance"]
    ensures RuleOf(key) == Assign("Risk Tolerance") ==>
      Normalize(items + [(key, val)])["Risk Tolerance"] == Strip(val)
  {
    NormalizeSnoc(items, key, val);
  }

  /** Likewise an advisor label never replaces a Referral Source, while a later
      referral label always does. */
  lemma ReferralSourcePrecedence(items: seq<(string, string)>, key: string, val: string)
    ensures RuleOf(key) == Advisor && "Referral Source" in Normalize(items) ==>
      Normalize(items + [(key, val)])["Referral Source"] == Normalize(items)["Referral Source"]
    ensures RuleOf(key) == Assign("Referral Source") ==>
      Normalize(items + [(key, val)])["Referral Source"] == Strip(val)
  {
    NormalizeSnoc(items, key, val);
  }

  /** After an objective label, a risk-tolerance label overwrites Risk Tolerance. */
  lemma ObjectiveThenRisk(out: Record, objKey: string, objVal: string, riskKey: string, riskVal: string)
    requires RuleOf(objKey) == Objective && RuleOf(riskKey) == Assign("Risk Tolerance")
    ensures Step(Step(out, objKey, objVal), riskKey, riskVal)
         == SetDefault(out, "Investment Goal", Strip(objVal))["Risk Tolerance" := Strip(riskVal)]
  {
    var r := SetDefault(out, "Investment Goal", Strip(objVal))["Risk Tolerance" := Strip(riskVal)];
    var s := Step(Step(out, objKey, objVal), riskKey, riskVal);
    assert s.Keys == r.Keys;
    assert forall k :: k in r ==> s[k] == r[k];
  }

  /** Before an objective label, a risk-tolerance label is kept by it. */
  lemma RiskThenObjective(out: Record, objKey: string, objVal: string, riskKey: string, riskVal: string)
    requires RuleOf(objKey) == Objective && RuleOf(riskKey) == Assign("Risk Tolerance")
    ensures Step(Step(out, riskKey, riskVal), objKey, objVal)
         == SetDefault(out, "Investment Goal", Strip(objVal))["Risk Tolerance" := Strip(riskVal)]
  {
    var r := SetDefault(out, "Investment Goal", Strip(objVal))["Risk Tolerance" := Strip(riskVal)];
    var s := Step(Step(out, riskKey, riskVal), objKey, objVal);
    assert s.Keys == r.Keys;
    assert forall k :: k in r ==> s[k] == r[k];
  }

  /** An objective label and a risk-tolerance label give the same record in
      either order: the explicit risk tolerance wins. */
  lemma ObjectiveAndRiskInEitherOrder(items: seq<(string, string)>, objKey: string, objVal: string, riskKey: string, riskVal: string)
    requires RuleOf(objKey) == Objective && RuleOf(riskKey) == Assign("Risk Tolerance")
    ensures var a, b := Normalize(items + [(objKey, objVal), (riskKey, riskVal)]),
                        Normalize(items + [(riskKey, riskVal), (objKey, objVal)]);
      a == b && a["Risk Tolerance"] == Strip(riskVal)
  {
    var x, y := (objKey, objVal), (riskKey, riskVal);
    assert items + [x, y] == (items + [x]) + [y];
    assert items + [y, x] == (items + [y]) + [x];
    NormalizeSnoc(items, objKey, objVal);
    NormalizeSnoc(items + [x], riskKey, riskVal);
    NormalizeSnoc(items, riskKey, riskVal);
    NormalizeSnoc(items + [y], objKey, objVal);
    ObjectiveThenRisk(Normalize(items), objKey, objVal, riskKey, riskVal);
    RiskThenObjective(Normalize(items), objKey, objVal, riskKey, riskVal);
  }

  /** The trimmed, non-empty values of the note-like labels, in order. */
  function NoteValues(items: seq<(string, string)>): (r: seq<string>)
    ensures forall i :: 0 <= i < |r| ==> r[i] != "" && IsStripped(r[i])
  {
    if items == [] then []
    else
      var last := items[|items| - 1];
      var v := Strip(last.1);
      NoteValues(items[..|items| - 1]) + (if RuleOf(last.0) == AppendNote && v != "" then [v] else [])
  }

  /** The rule each label of the items selects, in order. */
  function RulesOf(items: seq<(string, string)>): (r: seq<Rule>)
    ensures |r| == |items|
  {
    if items == [] then [] else RulesOf(items[..|items| - 1]) + [RuleOf(items[|items| - 1].0)]
  }

  /** Some label of the items is note-like. */
  predicate HasNoteLabel(items: seq<(string, string)>) {
    AppendNote in RulesOf(items)
  }

  lemma ApplyKeepsNotes(out: Record, rule: Rule, k: string, v: string)
    requires rule != AppendNote && (rule.Assign? ==> rule.target != "Notes") && (rule == Passthrough ==> k != "Notes")
    ensures var r := Apply(out, rule, k, v);
      ("Notes" in r <==> "Notes" in out) && ("Notes" in out ==> r["Notes"] == out["Notes"])
  {
  }

  /** A label reading "Notes" is note-like. */
  lemma NotesLabel(key: string)
    ensures Strip(key) == "Notes" ==> RuleOf(key) == AppendNote
  {
    if Strip(key) == "Notes" {
      NotesLowered();
      ClassifyNotes();
    }
  }

  lemma NotesLowered()
    ensures Lower("Notes") == "notes"
  {
    var l := Lower("Notes");
    assert l[0] == 'n';
  }

  /** No assignment rule targets "Notes". */
  lemma AssignNeverNotes(kl: string)
    ensures Classify(kl) != Assign("Notes")
  {
    FirstRuleSelected(Rules(), kl);
    NotesNeverAssigned();
    if Classify(kl) == Assign("Notes") {
      SelectsMentions(Rules(), kl, Assign("Notes"));
    }
  }

  /** No branch assigns "Notes" directly. */
  lemma NotesNeverAssigned()
    ensures !Mentions(Rules(), Assign("Notes"))
  {
    var r := Assign("Notes");
    var profile := ProfileRules();
    var finance := FinanceRules(profile);
    var contact := ContactRules(finance);
    ProfileMentions(r);
    FinanceMentions(profile, r);
    ContactMentions(finance, r);
    var c := PersonRules(contact);
    MentionsSkip(c, r);
    MentionsSkip(c.rest, r);
    MentionsSkip(c.rest.rest, r);
    MentionsSkip(c.rest.rest.rest, r);
  }

  lemma HasNoteLabelSnoc(items: seq<(string, string)>)
    requires items != []
    ensures HasNoteLabel(items) <==> HasNoteLabel(items[..|items| - 1]) || RuleOf(items[|items| - 1].0) == AppendNote
  {
  }

  /** Only a note-like label touches "Notes". */
  lemma NotesOnlyFromNoteLabels(out: Record, key: string, val: string)
    requires RuleOf(key) != AppendNote
    ensures var r := Step(out, key, val);
      ("Notes" in r <==> "Notes" in out) && ("Notes" in out ==> r["Notes"] == out["Notes"])
  {
    NotesLabel(key);
    AssignNeverNotes(Lower(Strip(key)));
    ApplyKeepsNotes(out, RuleOf(key), Strip(key), Strip(val));
  }

  /** The note rule appends a non-empty value to the notes joined so far. */
  lemma ApplyNote(out: Record, k: string, v: string, nv: seq<string>)
    requires IsStripped(v)
    requires forall i :: 0 <= i < |nv| ==> nv[i] != "" && IsStripped(nv[i])
    requires Get(out, "Notes") == Join("  ", nv)
    ensures var r := Apply(out, AppendNote, k, v);
      "Notes" in r && r["Notes"] == Join("  ", nv + (if v != "" then [v] else []))
  {
    var existing := Get(out, "Notes");
    if nv != [] {
      JoinOfStripped("  ", nv);
      StripSpacedConcat(existing, v);
      if v != "" {
        JoinAppend("  ", nv, v);
      } else {
        assert nv + [] == nv;
      }
    } else if v == "" {
      assert nv + [] == nv;
    } else {
      assert nv + [v] == [v];
    }
  }

  /** Notes accumulate: "Notes" is present exactly when some label is note-like,
      and then holds every non-empty note value in order, joined by two spaces;
      no later label overwrites an earlier note. */
  lemma {:induction false} NotesAccumulate(items: seq<(string, string)>)
    ensures "Notes" in Normalize(items) <==> HasNoteLabel(items)
    ensures "Notes" in Normalize(items) ==> Normalize(items)["Notes"] == Join("  ", NoteValues(items))
    decreases |items|
  {
    if items != [] {
      var prefix := items[..|items| - 1];
      var (key, val) := items[|items| - 1];
      var prev := Normalize(prefix);
      NotesAccumulate(prefix);
      HasNoteLabelSnoc(items);
      var nv := NoteValues(prefix);
      assert Normalize(items) == Step(prev, key, val);
      if RuleOf(key) != AppendNote {
        assert NoteValues(items) == nv;
        NotesOnlyFromNoteLabels(prev, key, val);
      } else {
        var v := Strip(val);
        assert NoteValues(items) == nv + (if v != "" then [v] else []);
        if "Notes" !in prev && nv != [] {
          NoteValuesHaveLabels(prefix);
        }
        ApplyNote(prev, Strip(key), v, nv);
        assert Step(prev, key, val) == Apply(prev, AppendNote, Strip(key), v);
      }
    }
  }

  lemma {:induction false} NoteValuesHaveLabels(items: seq<(string, string)>)
    requires NoteValues(items) != []
    ensures HasNoteLabel(items)
    decreases |items|
  {
    var prefix := items[..|items| - 1];
    var last := items[|items| - 1];
    if RuleOf(last.0) != AppendNote || Strip(last.1) == "" {
      NoteValuesHaveLabels(prefix);
    }
  }

  /** One iteration of _normalize_fields' loop: the if/elif chain on one label. */
  method NormalizeOne(out0: Record, key: string, val: string) returns (out: Record)
    ensures out == Step(out0, key, val)
  {
    out := out0;
    var k := Strip(key);
    var kl := Lower(k);
    var v := Strip(val);
    var rule := Classify(kl);
    if rule == SplitFullName {
      var parts := Split(v);
      if |parts| >= 2 {
        out := out["First Name" := parts[0]];
        out := out["Last Name" := parts[|parts| - 1]];
        if |parts| == 3 {
          out := out["Middle Initial" := parts[1]];
        }
      } else {
        out := out["First Name" := v];
      }
    } else if rule == BirthDate {
      out := out["Date of Birth" := ParseDate(v)];
    } else if rule == Objective {
      if "Investment Goal" !in out {
        out := out["Investment Goal" := v];
      }
      if "Risk Tolerance" !in out {
        out := out["Risk Tolerance" := v];
      }
    } else if rule == Advisor {
      if "Referral Source" !in out {
        out := out["Referral Source" := v];
      }
    } else if rule == AppendNote {
      var existing := if "Notes" in out then out["Notes"] else "";
      out := out["Notes" := if existing != "" then Strip(existing + "  " + v) else v];
    } else if rule == Passthrough {
      out := out[k := v];
    } else {
      out := out[rule.target := v];
    }
  }

  /** Normalizing one more item of a list applies its step to what came before. */
  lemma NormalizePrefixSnoc(items: seq<(string, string)>, i: nat)
    requires i < |items|
    ensures Normalize(items[..i + 1]) == Step(Normalize(items[..i]), items[i].0, items[i].1)
  {
    assert items[..i + 1][..i] == items[..i];
  }

  /** _normalize_fields: one pass over the raw record in insertion order. */
  method NormalizeFields(raw: RawRecord) returns (out: Record)
    requires raw.Valid()
    ensures out == Normalize(raw.Items())
  {
    var items := raw.Items();
    out := map[];
    var i := 0;
    while i < |items|
      invariant 0 <= i <= |items|
      invariant out == Normalize(items[..i])
    {
      NormalizePrefixSnoc(items, i);
      out := NormalizeOne(out, items[i].0, items[i].1);
      i := i + 1;
    }
    assert items[..i] == items;
  }

  // Re-normalizing the output ----------------------------------------------

  // Every key the normalizer writes is recognized again by the rule that
  // wrote it. The group lemmas below pass a label over a whole group of
  // branches; the classification lemmas then follow each canonical key
  // through the chain to its own branch.

  /** A branch whose tests all fail passes the label on. */
  lemma Fails(c: Chain, kl: string)
    requires c.Try? && forall j :: 0 <= j < |c.tests| ==> !Passes(c.tests[j], kl)
    ensures FirstRule(c, kl) == FirstRule(c.rest, kl)
  {
    AnyPassesSome(c.tests, kl);
  }

  /** A label that fails every name and birth-date test passes the group by. */
  lemma PersonSkip(rest: Chain, kl: string)
    requires !Contains(kl, "first") || !Contains(kl, "last")
    requires kl !in {"full name", "name", "first name", "firstname", "first",
                     "last name", "lastname", "last", "dob", "date of birth", "birthdate", "birth date"}
    ensures FirstRule(PersonRules(rest), kl) == FirstRule(rest, kl)
  {
    var c := PersonRules(rest);
    Fails(c, kl);
    Fails(c.rest, kl);
    Fails(c.rest.rest, kl);
    Fails(c.rest.rest.rest, kl);
  }

  /** A label that is none of the contact words passes the group by. */
  lemma ContactSkip(rest: Chain, kl: string)
    requires kl !in {"address", "city", "state", "zip", "zip code", "postal code", "phone", "email"}
    ensures FirstRule(ContactRules(rest), kl) == FirstRule(rest, kl)
  {
    var c := ContactRules(rest);
    Fails(c, kl);
    Fails(c.rest, kl);
    Fails(c.rest.rest, kl);
    Fails(c.rest.rest.rest, kl);
    Fails(c.rest.rest.rest.rest, kl);
    Fails(c.rest.rest.rest.rest.rest, kl);
  }

  /** A label that fails every finance test passes the group by. */
  lemma FinanceSkip(rest: Chain, kl: string)
    requires !Contains(kl, "annual income") && !Contains(kl, "net worth") && !Contains(kl, "liquid")
    requires kl !in {"employer", "company", "firm"}
    requires !Contains(kl, "occupation") && !Contains(kl, "title") && !Contains(kl, "job title")
    ensures FirstRule(FinanceRules(rest), kl) == FirstRule(rest, kl)
  {
    var c := FinanceRules(rest);
    Fails(c, kl);
    Fails(c.rest, kl);
    Fails(c.rest.rest, kl);
    Fails(c.rest.rest.rest, kl);
    Fails(c.rest.rest.rest.rest, kl);
  }

  /** A branch with a passing test decides. */
  lemma Takes(c: Chain, kl: string, j: nat)
    requires c.Try? && j < |c.tests| && Passes(c.tests[j], kl)
    ensures FirstRule(c, kl) == c.rule
  {
    AnyPassesSome(c.tests, kl);
  }

  /** The characters of an occurrence are those of the pattern. */
  lemma OccursAtChars(s: string, sub: string, i: nat)
    requires OccursAt(s, sub, i)
    ensures forall j :: 0 <= j < |sub| ==> s[i + j] == sub[j]
  {
    forall j | 0 <= j < |sub| ensures s[i + j] == sub[j] {
      assert s[i..i + |sub|][j] == s[i + j];
    }
  }

  /** "title" needs two t's two places apart. */
  lemma NoTitle(kl: string)
    requires forall i :: 0 <= i < |kl| - 2 && kl[i] == 't' ==> kl[i + 2] != 't'
    ensures !Contains(kl, "title")
  {
    forall i: nat | i + 5 <= |kl| ensures !OccursAt(kl, "title", i) {
      var w := kl[i..i + 5];
      assert w[0] == kl[i] && w[2] == kl[i + 2];
      assert w[0] != 't' || w[2] != 't';
    }
  }

  // Labels that lack letters. A label lacking some letter of a word does not
  // contain the word; these lemmas rule out whole sets of words at once.

  /** A label written with the letters of an alphabet lacks every other letter. */
  lemma Lacks(kl: string, alphabet: string, others: string)
    requires forall i :: 0 <= i < |kl| ==> kl[i] in alphabet
    requires forall i :: 0 <= i < |others| ==> others[i] !in alphabet
    ensures forall c :: c in others ==> c !in kl
  {
  }

  /** A label shorter than a word does not contain it. */
  lemma ShortLabel(kl: string)
    requires |kl| < 4
    ensures forall sub :: |kl| < |sub| ==> !Contains(kl, sub)
  {
  }

  /** A label lacking a letter of "first", of "annual income" and of
      "net worth" contains none of them. */
  lemma NoneOf(kl: string, first: char, income: char, worth: char)
    requires first in "first" && first !in kl
    requires income in "annual income" && income !in kl
    requires worth in "net worth" && worth !in kl
    ensures !Contains(kl, "first") && !Contains(kl, "annual income") && !Contains(kl, "net worth")
  {
    MissingCharNotContained(kl, "first", first);
    MissingCharNotContained(kl, "annual income", income);
    MissingCharNotContained(kl, "net worth", worth);
  }

  /** A label lacking 'f', 'u', 'w', 'q' and 'j' and without "title" fails
      the name and finance tests and the objective test. */
  lemma NoFinanceWord(kl: string)
    requires 'f' !in kl && 'u' !in kl && 'w' !in kl && 'q' !in kl && 'j' !in kl
    requires !Contains(kl, "title")
    ensures !Contains(kl, "first") && !Contains(kl, "annual income") && !Contains(kl, "net worth")
    ensures !Contains(kl, "liquid") && !Contains(kl, "occupation") && !Contains(kl, "job title")
    ensures !Contains(kl, "objective")
  {
    MissingCharNotContained(kl, "first", 'f');
    MissingCharNotContained(kl, "annual income", 'u');
    MissingCharNotContained(kl, "occupation", 'u');
    MissingCharNotContained(kl, "net worth", 'w');
    MissingCharNotContained(kl, "liquid", 'q');
    MissingCharNotContained(kl, "job title", 'j');
    MissingCharNotContained(kl, "objective", 'j');
  }

  /** A label lacking 't', 'm', 'p', 'q', 'j', 'k' and 'h' fails every test
      before the referral branch. */
  lemma BeforeReferral(kl: string)
    requires 't' !in kl && 'm' !in kl && 'p' !in kl && 'q' !in kl && 'j' !in kl && 'k' !in kl && 'h' !in kl
    ensures !Contains(kl, "first") && !Contains(kl, "annual income") && !Contains(kl, "net worth")
    ensures !Contains(kl, "liquid") && !Contains(kl, "occupation") && !Contains(kl, "title")
    ensures !Contains(kl, "job title") && !Contains(kl, "objective") && !Contains(kl, "investment goal")
    ensures !Contains(kl, "risk") && !Contains(kl, "time horizon") && !Contains(kl, "horizon")
  {
    MissingCharNotContained(kl, "first", 't');
    MissingCharNotContained(kl, "annual income", 'm');
    MissingCharNotContained(kl, "net worth", 't');
    MissingCharNotContained(kl, "liquid", 'q');
    MissingCharNotContained(kl, "occupation", 'p');
    MissingCharNotContained(kl, "title", 't');
    MissingCharNotContained(kl, "job title", 't');
    MissingCharNotContained(kl, "objective", 'j');
    MissingCharNotContained(kl, "investment goal", 't');
    MissingCharNotContained(kl, "risk", 'k');
    MissingCharNotContained(kl, "time horizon", 't');
    MissingCharNotContained(kl, "horizon", 'h');
  }

  /** A label lacking 'r', 'o', 'v', 'f' and 'w' fails every profile test
      after the objective branch. */
  lemma NoProfileWord(kl: string)
    requires 'r' !in kl && 'o' !in kl && 'v' !in kl && 'f' !in kl && 'w' !in kl
    ensures !Contains(kl, "risk") && !Contains(kl, "horizon") && !Contains(kl, "time horizon")
    ensures !Contains(kl, "referral") && !Contains(kl, "lead source") && !Contains(kl, "referred")
    ensures !Contains(kl, "source") && !Contains(kl, "advisor") && !Contains(kl, "note")
    ensures !Contains(kl, "account") && !Contains(kl, "investment goal") && !Contains(kl, "was")
    ensures !Contains(kl, "fee")
  {
    MissingCharNotContained(kl, "risk", 'r');
    MissingCharNotContained(kl, "horizon", 'r');
    MissingCharNotContained(kl, "time horizon", 'r');
    MissingCharNotContained(kl, "referral", 'r');
    MissingCharNotContained(kl, "lead source", 'r');
    MissingCharNotContained(kl, "referred", 'r');
    MissingCharNotContained(kl, "source", 'r');
    MissingCharNotContained(kl, "advisor", 'r');
    MissingCharNotContained(kl, "note", 'o');
    MissingCharNotContained(kl, "account", 'o');
    MissingCharNotContained(kl, "investment goal", 'v');
    MissingCharNotContained(kl, "was", 'w');
    MissingCharNotContained(kl, "fee", 'f');
  }

  // Labels through the groups of branches.

  lemma FirstNamePick(rest: Chain)
    ensures FirstRule(PersonRules(rest), "first name") == Assign("First Name")
  {
    var c := PersonRules(rest);
    MissingCharNotContained("first name", "last", 'l');
    Fails(c, "first name");
    Takes(c.rest, "first name", 0);
  }

  lemma LastNamePick(rest: Chain)
    ensures FirstRule(PersonRules(rest), "last name") == Assign("Last Name")
  {
    var c := PersonRules(rest);
    MissingCharNotContained("last name", "first", 'f');
    Fails(c, "last name");
    Fails(c.rest, "last name");
    Takes(c.rest.rest, "last name", 0);
  }

  lemma ContactPick(rest: Chain, kl: string, key: string)
    requires (kl, key) in {("address", "Address"), ("city", "City"), ("state", "State"),
                           ("zip", "ZIP"), ("phone", "Phone"), ("email", "Email")}
    ensures FirstRule(ContactRules(rest), kl) == Assign(key)
  {
    var c := ContactRules(rest);
    if kl == "address" {
      Takes(c, kl, 0);
    } else {
      Fails(c, kl);
      if kl == "city" {
        Takes(c.rest, kl, 0);
      } else {
        Fails(c.rest, kl);
        if kl == "state" {
          Takes(c.rest.rest, kl, 0);
        } else {
          Fails(c.rest.rest, kl);
          if kl == "zip" {
            Takes(c.rest.rest.rest, kl, 0);
          } else {
            Fails(c.rest.rest.rest, kl);
            if kl == "phone" {
              Takes(c.rest.rest.rest.rest, kl, 0);
            } else {
              Fails(c.rest.rest.rest.rest, kl);
              Takes(c.rest.rest.rest.rest.rest, kl, 0);
            }
          }
        }
      }
    }
  }

  /** A contact key passes the name group and selects its own assignment. */
  lemma ClassifyContactKey(kl: string, key: string)
    requires (kl, key) in {("address", "Address"), ("city", "City"), ("state", "State"),
                           ("zip", "ZIP"), ("phone", "Phone"), ("email", "Email")}
    ensures Classify(kl) == Assign(key)
  {
    var contact := ContactRules(FinanceRules(ProfileRules()));
    MissingCharNotContained(kl, "first", 'f');
    PersonSkip(contact, kl);
    ContactPick(FinanceRules(ProfileRules()), kl, key);
  }

  /** A label that is no name, birth-date or contact word reaches the finance group. */
  lemma PassNamesAndContacts(kl: string)
    requires !Contains(kl, "first") || !Contains(kl, "last")
    requires kl !in {"full name", "name", "first name", "firstname", "first",
                     "last name", "lastname", "last", "dob", "date of birth", "birthdate", "birth date"}
    requires kl !in {"address", "city", "state", "zip", "zip code", "postal code", "phone", "email"}
    ensures Classify(kl) == FirstRule(FinanceRules(ProfileRules()), kl)
  {
    var finance := FinanceRules(ProfileRules());
    PersonSkip(ContactRules(finance), kl);
    ContactSkip(finance, kl);
  }

  /** The finance branch that takes a label failing the branches before it. */
  lemma FinancePick(rest: Chain, kl: string, b: nat)
    requires b < 5
    requires b > 0 ==> !Contains(kl, "annual income")
    requires b > 1 ==> !Contains(kl, "net worth")
    requires b > 2 ==> !Contains(kl, "liquid")
    requires b > 3 ==> kl !in {"employer", "company", "firm"}
    requires b == 0 ==> Contains(kl, "annual income")
    requires b == 1 ==> Contains(kl, "net worth")
    requires b == 2 ==> Contains(kl, "liquid")
    requires b == 3 ==> kl == "employer"
    requires b == 4 ==> Contains(kl, "occupation")
    ensures FirstRule(FinanceRules(rest), kl) ==
      Assign(["Annual Income", "Est. Net Worth", "Liquid Assets", "Employer", "Occupation"][b])
  {
    var c := FinanceRules(rest);
    if b == 0 {
      Takes(c, kl, 0);
    } else {
      Fails(c, kl);
      if b == 1 {
        Takes(c.rest, kl, 0);
      } else {
        Fails(c.rest, kl);
        if b == 2 {
          Takes(c.rest.rest, kl, 0);
        } else {
          Fails(c.rest.rest, kl);
          if b == 3 {
            Takes(c.rest.rest.rest, kl, 0);
          } else {
            Fails(c.rest.rest.rest, kl);
            Takes(c.rest.rest.rest.rest, kl, 0);
          }
        }
      }
    }
  }

  /** A label failing every test of the first three groups reaches the
      investor-profile group. */
  lemma PassFinances(kl: string)
    requires !Contains(kl, "first") || !Contains(kl, "last")
    requires kl !in {"full name", "name", "first name", "firstname", "first",
                     "last name", "lastname", "last", "dob", "date of birth", "birthdate", "birth date"}
    requires kl !in {"address", "city", "state", "zip", "zip code", "postal code", "phone", "email"}
    requires !Contains(kl, "annual income") && !Contains(kl, "net worth") && !Contains(kl, "liquid")
    requires kl !in {"employer", "company", "firm"}
    requires !Contains(kl, "occupation") && !Contains(kl, "title") && !Contains(kl, "job title")
    ensures Classify(kl) == FirstRule(ProfileRules(), kl)
  {
    PassNamesAndContacts(kl);
    FinanceSkip(ProfileRules(), kl);
  }

  /** A label without "objective" or "investment goal" passes the objective branch. */
  lemma ObjectiveFails(kl: string)
    requires !Contains(kl, "objective") && !Contains(kl, "investment goal")
    ensures FirstRule(ProfileRules(), kl) == FirstRule(ProfileRules().rest, kl)
  {
    var c := ProfileRules();
    if Contains(kl, "investment objective") {
      var i: nat :| i <= |kl| && OccursAt(kl, "investment objective", i);
      OccursAtChars(kl, "investment objective", i);
      assert OccursAt(kl, "objective", i + 11) by {
        assert kl[i + 11..i + 20] == "objective";
      }
    }
    Fails(c, kl);
  }

  /** The profile branch that takes a label failing the branches before it;
      a label failing them all is kept as written. */
  lemma ProfilePick(kl: string, b: nat)
    requires b < 9 && b != 4 && b != 5
    requires b > 0 ==> !Contains(kl, "objective") && !Contains(kl, "investment goal")
    requires b > 1 ==> !Contains(kl, "risk")
    requires b > 2 ==> !Contains(kl, "time horizon") && !Contains(kl, "horizon")
    requires b > 3 ==> !Contains(kl, "referral") && !Contains(kl, "lead source") && !Contains(kl, "referred")
    requires b > 3 ==> !Contains(kl, "source") && !Contains(kl, "advisor")
    requires b > 5 ==> !Contains(kl, "note") && !Contains(kl, "account")
    requires b > 6 ==> !Contains(kl, "was")
    requires b > 7 ==> !Contains(kl, "fee")
    requires b == 0 ==> Contains(kl, "investment goal")
    requires b == 1 ==> Contains(kl, "risk") && Contains(kl, "tolerance")
    requires b == 2 ==> Contains(kl, "time horizon")
    requires b == 3 ==> Contains(kl, "referral")
    requires b == 6 ==> Contains(kl, "was")
    requires b == 7 ==> Contains(kl, "fee")
    ensures FirstRule(ProfileRules(), kl) ==
      [Objective, Assign("Risk Tolerance"), Assign("Time Horizon (yrs)"), Assign("Referral Source"),
       Advisor, AppendNote, Assign("WAS"), Assign("Fee"), Passthrough][b]
  {
    var c := ProfileRules();
    if b == 0 {
      Takes(c, kl, 2);
    } else {
      ObjectiveFails(kl);
      if b == 1 {
        Takes(c.rest, kl, 0);
      } else {
        Fails(c.rest, kl);
        if b == 2 {
          Takes(c.rest.rest, kl, 0);
        } else {
          Fails(c.rest.rest, kl);
          if b == 3 {
            Takes(c.rest.rest.rest, kl, 0);
          } else {
            ProfileTailPick(kl, b);
          }
        }
      }
    }
  }

  lemma ProfileTailPick(kl: string, b: nat)
    requires 5 < b < 9
    requires !Contains(kl, "referral") && !Contains(kl, "lead source") && !Contains(kl, "referred")
    requires !Contains(kl, "source") && !Contains(kl, "advisor") && !Contains(kl, "note") && !Contains(kl, "account")
    requires b > 6 ==> !Contains(kl, "was")
    requires b > 7 ==> !Contains(kl, "fee")
    requires b == 6 ==> Contains(kl, "was")
    requires b == 7 ==> Contains(kl, "fee")
    ensures FirstRule(ProfileRules().rest.rest.rest, kl) ==
      [Objective, Assign("Risk Tolerance"), Assign("Time Horizon (yrs)"), Assign("Referral Source"),
       Advisor, AppendNote, Assign("WAS"), Assign("Fee"), Passthrough][b]
  {
    var c := ProfileRules().rest.rest.rest;
    Fails(c, kl);
    Fails(c.rest, kl);
    Fails(c.rest.rest, kl);
    var d := c.rest.rest.rest;
    if b == 6 {
      Takes(d, kl, 0);
    } else {
      Fails(d, kl);
      if b == 7 {
        Takes(d.rest, kl, 0);
      } else {
        Fails(d.rest, kl);
      }
    }
  }

  // The canonical keys. For each key the normalizer writes, one lemma spells
  // the key out (its lower-cased form and the letters it is made of), another
  // derives its rule from those facts alone, and a third joins the two.

  /** key is a trimmed label whose lower-cased form is kl. */
  predicate Spells(key: string, kl: string) {
    && |key| == |kl| && (forall i :: 0 <= i < |key| ==> LowerChar(key[i]) == kl[i])
    && key != [] && !IsSpace(key[0]) && !IsSpace(key[|key| - 1])
  }

  /** A trimmed label whose lower-cased form selects a rule selects it as written. */
  lemma CanonicalRule(key: string, kl: string, r: Rule)
    requires Spells(key, kl) && Classify(kl) == r
    ensures Strip(key) == key && RuleOf(key) == r
  {
    assert Lower(key) == kl;
    StripOfStripped(key);
  }

  lemma FirstNameKey(key: string)
    requires key == "First Name"
    ensures Strip(key) == key && RuleOf(key) == Assign(key)
  {
    var kl := "first name";
    assert Spells(key, kl);
    FirstNamePick(ContactRules(FinanceRules(ProfileRules())));
    CanonicalRule(key, kl, Assign(key));
  }

  lemma LastNameKey(key: string)
    requires key == "Last Name"
    ensures Strip(key) == key && RuleOf(key) == Assign(key)
  {
    var kl := "last name";
    assert Spells(key, kl);
    LastNamePick(ContactRules(FinanceRules(ProfileRules())));
    CanonicalRule(key, kl, Assign(key));
  }

  lemma DateOfBirthKey(key: string)
    requires key == "Date of Birth"
    ensures Strip(key) == key && RuleOf(key) == BirthDate
  {
    var kl := "date of birth";
    assert Spells(key, kl);
    ClassifyDateOfBirth(kl);
    CanonicalRule(key, kl, BirthDate);
  }

  lemma ContactSpelling(key: string, kl: string)
    requires (kl, key) in {("address", "Address"), ("city", "City"), ("state", "State"),
                           ("zip", "ZIP"), ("phone", "Phone"), ("email", "Email")}
    ensures Spells(key, kl)
  {
  }

  lemma ContactKey(key: string, kl: string)
    requires (kl, key) in {("address", "Address"), ("city", "City"), ("state", "State"),
                           ("zip", "ZIP"), ("phone", "Phone"), ("email", "Email")}
    ensures Strip(key) == key && RuleOf(key) == Assign(key)
  {
    ContactSpelling(key, kl);
    ClassifyContactKey(kl, key);
    CanonicalRule(key, kl, Assign(key));
  }

  lemma ClassifyAnnualIncome(kl: string)
    requires kl == "annual income"
    ensures Classify(kl) == Assign("Annual Income")
  {
    MissingCharNotContained(kl, "first", 'f');
    PassNamesAndContacts(kl);
    assert OccursAt(kl, "annual income", 0);
    FinancePick(ProfileRules(), kl, 0);
  }

  lemma ClassifyNetWorth(kl: string)
    requires kl == "est. net worth"
    ensures Classify(kl) == Assign("Est. Net Worth")
  {
    assert 'f' !in kl && 'u' !in kl;
    MissingCharNotContained(kl, "first", 'f');
    MissingCharNotContained(kl, "annual income", 'u');
    assert OccursAt(kl, "net worth", 5);
    PassNamesAndContacts(kl);
    FinancePick(ProfileRules(), kl, 1);
  }

  lemma ClassifyLiquidAssets(kl: string)
    requires kl == "liquid assets"
    ensures Classify(kl) == Assign("Liquid Assets")
  {
    assert 'f' !in kl && 'n' !in kl;
    NoneOf(kl, 'f', 'n', 'n');
    assert OccursAt(kl, "liquid", 0);
    PassNamesAndContacts(kl);
    FinancePick(ProfileRules(), kl, 2);
  }

  lemma ClassifyEmployer(kl: string)
    requires kl == "employer"
    ensures Classify(kl) == Assign("Employer")
  {
    assert 'f' !in kl && 'n' !in kl && 'q' !in kl;
    NoneOf(kl, 'f', 'n', 'n');
    MissingCharNotContained(kl, "liquid", 'q');
    PassNamesAndContacts(kl);
    FinancePick(ProfileRules(), kl, 3);
  }

  lemma ClassifyOccupation(kl: string)
    requires kl == "occupation"
    ensures Classify(kl) == Assign("Occupation")
  {
    assert 'f' !in kl && 'l' !in kl && 'w' !in kl;
    NoneOf(kl, 'f', 'l', 'w');
    MissingCharNotContained(kl, "liquid", 'l');
    assert OccursAt(kl, "occupation", 0);
    PassNamesAndContacts(kl);
    FinancePick(ProfileRules(), kl, 4);
  }

  lemma AnnualIncomeSpelling(key: string, kl: string)
    requires key == "Annual Income" && kl == "annual income"
    ensures Spells(key, kl)
  {
  }

  lemma NetWorthSpelling(key: string, kl: string)
    requires key == "Est. Net Worth" && kl == "est. net worth"
    ensures Spells(key, kl)
  {
  }

  lemma LiquidAssetsSpelling(key: string, kl: string)
    requires key == "Liquid Assets" && kl == "liquid assets"
    ensures Spells(key, kl)
  {
  }

  lemma EmployerSpelling(key: string, kl: string)
    requires (kl, key) in {("employer", "Employer"), ("occupation", "Occupation")}
    ensures Spells(key, kl)
  {
  }

  lemma FinanceKey(key: string, kl: string)
    requires (kl, key) in {("annual income", "Annual Income"), ("est. net worth", "Est. Net Worth"),
                           ("liquid assets", "Liquid Assets"), ("employer", "Employer"),
                           ("occupation", "Occupation")}
    ensures Strip(key) == key && RuleOf(key) == Assign(key)
  {
    if kl == "annual income" {
      AnnualIncomeSpelling(key, kl);
      ClassifyAnnualIncome(kl);
    } else if kl == "est. net worth" {
      NetWorthSpelling(key, kl);
      ClassifyNetWorth(kl);
    } else if kl == "liquid assets" {
      LiquidAssetsSpelling(key, kl);
      ClassifyLiquidAssets(kl);
    } else {
      EmployerSpelling(key, kl);
      if kl == "employer" {
        ClassifyEmployer(kl);
      } else {
        ClassifyOccupation(kl);
      }
    }
    CanonicalRule(key, kl, Assign(key));
  }

  lemma InvestmentGoalSpelling(key: string, kl: string)
    requires key == "Investment Goal" && kl == "investment goal"
    ensures Spells(key, kl) && |kl| > 13 && OccursAt(kl, "investment goal", 0)
    ensures forall i :: 0 <= i < |kl| ==> kl[i] in " aegilmnostv"
    ensures forall i :: 0 <= i < |kl| - 2 && kl[i] == 't' ==> kl[i + 2] != 't'
  {
  }

  lemma InvestmentGoalLacks(kl: string)
    requires forall i :: 0 <= i < |kl| ==> kl[i] in " aegilmnostv"
    ensures 'f' !in kl && 'u' !in kl && 'w' !in kl && 'q' !in kl && 'j' !in kl
  {
    Lacks(kl, " aegilmnostv", "fuwqj");
  }

  lemma InvestmentGoalRule(kl: string)
    requires |kl| > 13 && OccursAt(kl, "investment goal", 0)
    requires 'f' !in kl && 'u' !in kl && 'w' !in kl && 'q' !in kl && 'j' !in kl
    requires forall i :: 0 <= i < |kl| - 2 && kl[i] == 't' ==> kl[i + 2] != 't'
    ensures Classify(kl) == Objective
  {
    NoTitle(kl);
    NoFinanceWord(kl);
    PassFinances(kl);
    ProfilePick(kl, 0);
  }

  lemma InvestmentGoalKey(key: string)
    requires key == "Investment Goal"
    ensures Strip(key) == key && RuleOf(key) == Objective
  {
    var kl := "investment goal";
    InvestmentGoalSpelling(key, kl);
    InvestmentGoalLacks(kl);
    InvestmentGoalRule(kl);
    CanonicalRule(key, kl, Objective);
  }

  lemma RiskToleranceSpelling(key: string, kl: string)
    requires key == "Risk Tolerance" && kl == "risk tolerance"
    ensures Spells(key, kl) && |kl| > 13 && OccursAt(kl, "risk", 0) && OccursAt(kl, "tolerance", 5)
    ensures forall i :: 0 <= i < |kl| ==> kl[i] in " aceiklnorst"
    ensures forall i :: 0 <= i < |kl| - 2 && kl[i] == 't' ==> kl[i + 2] != 't'
  {
  }

  lemma RiskToleranceLacks(kl: string)
    requires forall i :: 0 <= i < |kl| ==> kl[i] in " aceiklnorst"
    ensures 'f' !in kl && 'u' !in kl && 'w' !in kl && 'q' !in kl && 'j' !in kl && 'v' !in kl
  {
    Lacks(kl, " aceiklnorst", "fuwqjv");
  }

  lemma RiskToleranceRule(kl: string)
    requires |kl| > 13 && OccursAt(kl, "risk", 0) && OccursAt(kl, "tolerance", 5)
    requires 'f' !in kl && 'u' !in kl && 'w' !in kl && 'q' !in kl && 'j' !in kl && 'v' !in kl
    requires forall i :: 0 <= i < |kl| - 2 && kl[i] == 't' ==> kl[i + 2] != 't'
    ensures Classify(kl) == Assign("Risk Tolerance")
  {
    NoTitle(kl);
    NoFinanceWord(kl);
    PassFinances(kl);
    MissingCharNotContained(kl, "investment goal", 'v');
    ProfilePick(kl, 1);
  }

  lemma RiskToleranceKey(key: string)
    requires key == "Risk Tolerance"
    ensures Strip(key) == key && RuleOf(key) == Assign(key)
  {
    var kl := "risk tolerance";
    RiskToleranceSpelling(key, kl);
    RiskToleranceLacks(kl);
    RiskToleranceRule(kl);
    CanonicalRule(key, kl, Assign(key));
  }

  lemma TimeHorizonSpelling(key: string, kl: string)
    requires key == "Time Horizon (yrs)" && kl == "time horizon (yrs)"
    ensures Spells(key, kl) && |kl| > 13 && OccursAt(kl, "time horizon", 0)
    ensures forall i :: 0 <= i < |kl| ==> kl[i] in " ()ehimnorstyz"
  {
  }

  lemma TimeHorizonLacks(kl: string)
    requires forall i :: 0 <= i < |kl| ==> kl[i] in " ()ehimnorstyz"
    ensures 'f' !in kl && 'u' !in kl && 'w' !in kl && 'q' !in kl && 'j' !in kl
    ensures 'l' !in kl && 'v' !in kl && 'k' !in kl
  {
    Lacks(kl, " ()ehimnorstyz", "fuwqjlvk");
  }

  lemma TimeHorizonRule(kl: string)
    requires |kl| > 13 && OccursAt(kl, "time horizon", 0)
    requires 'f' !in kl && 'u' !in kl && 'w' !in kl && 'q' !in kl && 'j' !in kl
    requires 'l' !in kl && 'v' !in kl && 'k' !in kl
    ensures Classify(kl) == Assign("Time Horizon (yrs)")
  {
    MissingCharNotContained(kl, "title", 'l');
    NoFinanceWord(kl);
    PassFinances(kl);
    MissingCharNotContained(kl, "investment goal", 'v');
    MissingCharNotContained(kl, "risk", 'k');
    ProfilePick(kl, 2);
  }

  lemma TimeHorizonKey(key: string)
    requires key == "Time Horizon (yrs)"
    ensures Strip(key) == key && RuleOf(key) == Assign(key)
  {
    var kl := "time horizon (yrs)";
    TimeHorizonSpelling(key, kl);
    TimeHorizonLacks(kl);
    TimeHorizonRule(kl);
    CanonicalRule(key, kl, Assign(key));
  }

  lemma ReferralSourceSpelling(key: string, kl: string)
    requires key == "Referral Source" && kl == "referral source"
    ensures Spells(key, kl) && |kl| > 13 && OccursAt(kl, "referral", 0)
    ensures forall i :: 0 <= i < |kl| ==> kl[i] in " aceflorsu"
  {
  }

  lemma ReferralSourceLacks(kl: string)
    requires forall i :: 0 <= i < |kl| ==> kl[i] in " aceflorsu"
    ensures 't' !in kl && 'm' !in kl && 'p' !in kl && 'q' !in kl && 'j' !in kl && 'k' !in kl && 'h' !in kl
  {
    Lacks(kl, " aceflorsu", "tmpqjkh");
  }

  lemma ReferralSourceRule(kl: string)
    requires |kl| > 13 && OccursAt(kl, "referral", 0)
    requires 't' !in kl && 'm' !in kl && 'p' !in kl && 'q' !in kl && 'j' !in kl && 'k' !in kl && 'h' !in kl
    ensures Classify(kl) == Assign("Referral Source")
  {
    BeforeReferral(kl);
    PassFinances(kl);
    ProfilePick(kl, 3);
  }

  lemma ReferralSourceKey(key: string)
    requires key == "Referral Source"
    ensures Strip(key) == key && RuleOf(key) == Assign(key)
  {
    var kl := "referral source";
    ReferralSourceSpelling(key, kl);
    ReferralSourceLacks(kl);
    ReferralSourceRule(kl);
    CanonicalRule(key, kl, Assign(key));
  }

  lemma WasRule(kl: string)
    requires |kl| == 3 && OccursAt(kl, "was", 0) && kl[0] == 'w'
    ensures Classify(kl) == Assign("WAS")
  {
    ShortLabel(kl);
    PassFinances(kl);
    ProfilePick(kl, 6);
  }

  lemma WasKey(key: string)
    requires key == "WAS"
    ensures Strip(key) == key && RuleOf(key) == Assign(key)
  {
    var kl := "was";
    assert Spells(key, kl) && OccursAt(kl, "was", 0);
    WasRule(kl);
    CanonicalRule(key, kl, Assign(key));
  }

  lemma FeeRule(kl: string)
    requires |kl| == 3 && OccursAt(kl, "fee", 0) && kl[0] == 'f' && 'w' !in kl
    ensures Classify(kl) == Assign("Fee")
  {
    ShortLabel(kl);
    MissingCharNotContained(kl, "was", 'w');
    PassFinances(kl);
    ProfilePick(kl, 7);
  }

  lemma FeeKey(key: string)
    requires key == "Fee"
    ensures Strip(key) == key && RuleOf(key) == Assign(key)
  {
    var kl := "fee";
    assert Spells(key, kl) && OccursAt(kl, "fee", 0);
    FeeRule(kl);
    CanonicalRule(key, kl, Assign(key));
  }

  lemma MiddleInitialSpelling(key: string, kl: string)
    requires key == "Middle Initial" && kl == "middle initial"
    ensures Spells(key, kl) && |kl| > 13
    ensures forall i :: 0 <= i < |kl| ==> kl[i] in " adeilmnt"
    ensures forall i :: 0 <= i < |kl| - 2 && kl[i] == 't' ==> kl[i + 2] != 't'
  {
  }

  lemma MiddleInitialLacks(kl: string)
    requires forall i :: 0 <= i < |kl| ==> kl[i] in " adeilmnt"
    ensures 'f' !in kl && 'u' !in kl && 'w' !in kl && 'q' !in kl && 'j' !in kl
    ensures 'r' !in kl && 'o' !in kl && 'v' !in kl
  {
    Lacks(kl, " adeilmnt", "fuwqjrov");
  }

  lemma MiddleInitialRule(kl: string)
    requires |kl| > 13
    requires 'f' !in kl && 'u' !in kl && 'w' !in kl && 'q' !in kl && 'j' !in kl
    requires 'r' !in kl && 'o' !in kl && 'v' !in kl
    requires forall i :: 0 <= i < |kl| - 2 && kl[i] == 't' ==> kl[i + 2] != 't'
    ensures Classify(kl) == Passthrough
  {
    NoTitle(kl);
    NoFinanceWord(kl);
    PassFinances(kl);
    NoProfileWord(kl);
    ProfilePick(kl, 8);
  }

  /** "Middle Initial", written by the full-name rule, is recognized by no
      branch: it is kept as written. */
  lemma MiddleInitialKey(key: string)
    requires key == "Middle Initial"
    ensures Strip(key) == key && RuleOf(key) == Passthrough
  {
    var kl := "middle initial";
    MiddleInitialSpelling(key, kl);
    MiddleInitialLacks(kl);
    MiddleInitialRule(kl);
    CanonicalRule(key, kl, Passthrough);
  }

  // Reading the output back --------------------------------------------------

  /** The canonical keys an assignment branch writes. */
  const AssignTargets: set<string> := {
    "First Name", "Last Name", "Address", "City", "State", "ZIP", "Phone", "Email",
    "Annual Income", "Est. Net Worth", "Liquid Assets", "Employer", "Occupation",
    "Risk Tolerance", "Time Horizon (yrs)", "Referral Source", "WAS", "Fee"}

  /** Every key an assignment writes selects that same assignment when read back. */
  lemma AssignTargetRule(t: string)
    requires t in AssignTargets
    ensures Strip(t) == t && RuleOf(t) == Assign(t)
  {
    if t == "First Name" {
      FirstNameKey(t);
    } else if t == "Last Name" {
      LastNameKey(t);
    } else if t == "Address" {
      ContactKey(t, "address");
    } else if t == "City" {
      ContactKey(t, "city");
    } else if t == "State" {
      ContactKey(t, "state");
    } else if t == "ZIP" {
      ContactKey(t, "zip");
    } else if t == "Phone" {
      ContactKey(t, "phone");
    } else if t == "Email" {
      ContactKey(t, "email");
    } else if t == "Annual Income" {
      FinanceKey(t, "annual income");
    } else if t == "Est. Net Worth" {
      FinanceKey(t, "est. net worth");
    } else if t == "Liquid Assets" {
      FinanceKey(t, "liquid assets");
    } else if t == "Employer" {
      FinanceKey(t, "employer");
    } else if t == "Occupation" {
      FinanceKey(t, "occupation");
    } else if t == "Risk Tolerance" {
      RiskToleranceKey(t);
    } else if t == "Time Horizon (yrs)" {
      TimeHorizonKey(t);
    } else if t == "Referral Source" {
      ReferralSourceKey(t);
    } else if t == "WAS" {
      WasKey(t);
    } else {
      FeeKey(t);
    }
  }

  /** No assignment overwrites the date of birth or the investment goal. */
  lemma AssignTargetsOthers(t: string)
    requires t in AssignTargets
    ensures t != "Date of Birth" && t != "Investment Goal"
  {
  }

  /** The targets of the assignment branches of a chain. */
  function Targets(c: Chain): set<string> {
    match c
    case End => {}
    case Try(_, rule, rest) => (if rule.Assign? then {rule.target} else {}) + Targets(rest)
  }

  lemma {:induction false} SelectsTarget(c: Chain, kl: string, t: string)
    requires Selects(c, kl, Assign(t))
    ensures t in Targets(c)
  {
    if c.rule != Assign(t) || !AnyPasses(c.tests, kl) {
      SelectsTarget(c.rest, kl, t);
    }
  }

  lemma TargetsAssign(c: Chain)
    requires c.Try? && c.rule.Assign?
    ensures Targets(c) == {c.rule.target} + Targets(c.rest)
  {
  }

  lemma TargetsSkip(c: Chain)
    requires c.Try? && !c.rule.Assign?
    ensures Targets(c) == Targets(c.rest)
  {
  }

  lemma PersonTargets(rest: Chain)
    ensures Targets(PersonRules(rest)) == {"First Name", "Last Name"} + Targets(rest)
  {
    var c := PersonRules(rest);
    TargetsSkip(c);
    TargetsAssign(c.rest);
    TargetsAssign(c.rest.rest);
    TargetsSkip(c.rest.rest.rest);
  }

  lemma ContactTargets(rest: Chain)
    ensures Targets(ContactRules(rest)) == {"Address", "City", "State", "ZIP", "Phone", "Email"} + Targets(rest)
  {
    var c := ContactRules(rest);
    TargetsAssign(c);
    TargetsAssign(c.rest);
    TargetsAssign(c.rest.rest);
    TargetsAssign(c.rest.rest.rest);
    TargetsAssign(c.rest.rest.rest.rest);
    TargetsAssign(c.rest.rest.rest.rest.rest);
  }

  lemma FinanceTargets(rest: Chain)
    ensures Targets(FinanceRules(rest))
      == {"Annual Income", "Est. Net Worth", "Liquid Assets", "Employer", "Occupation"} + Targets(rest)
  {
    var c := FinanceRules(rest);
    TargetsAssign(c);
    TargetsAssign(c.rest);
    TargetsAssign(c.rest.rest);
    TargetsAssign(c.rest.rest.rest);
    TargetsAssign(c.rest.rest.rest.rest);
  }

  lemma ProfileTargets()
    ensures Targets(ProfileRules()) == {"Risk Tolerance", "Time Horizon (yrs)", "Referral Source", "WAS", "Fee"}
  {
  }

  /** The assignment branches of the whole chain write exactly the canonical keys. */
  lemma RulesTargets()
    ensures Targets(Rules()) == AssignTargets
  {
    var profile := ProfileRules();
    var finance := FinanceRules(profile);
    var contact := ContactRules(finance);
    ProfileTargets();
    FinanceTargets(profile);
    ContactTargets(finance);
    PersonTargets(contact);
  }

  /** An assignment selected by any label writes one of the canonical keys. */
  lemma AssignedTarget(key: string)
    ensures RuleOf(key).Assign? ==> RuleOf(key).target in AssignTargets
  {
    var kl := Lower(Strip(key));
    FirstRuleSelected(Rules(), kl);
    if RuleOf(key).Assign? {
      SelectsTarget(Rules(), kl, RuleOf(key).target);
      RulesTargets();
    }
  }

  /** Reading key back selects the rule that writes key itself, or keeps it as written. */
  predicate KeyReadsBack(k: string) {
    var r := RuleOf(k);
    || r == Passthrough || r == Assign(k)
    || (r == BirthDate && k == "Date of Birth")
    || (r == Objective && k == "Investment Goal")
    || (r == AppendNote && k == "Notes")
  }

  /** Every key of m is trimmed. */
  predicate KeysTrimmed(m: Record) {
    forall k :: k in m ==> Strip(k) == k
  }

  /** Every value of m is trimmed. */
  predicate ValuesTrimmed(m: Record) {
    forall k :: k in m ==> Strip(m[k]) == m[k]
  }

  /** Every key of m reads back to itself. */
  predicate KeysReadBack(m: Record) {
    forall k {:trigger KeyReadsBack(k)} :: k in m ==> KeyReadsBack(k)
  }

  /** A goal comes with a risk tolerance, and the date of birth holds no space
      (so, being trimmed, it is already parsed). */
  predicate Settled(m: Record) {
    && ("Investment Goal" in m ==> "Risk Tolerance" in m)
    && ("Date of Birth" in m ==> ' ' !in m["Date of Birth"])
  }

  /** What holds of every record the normalizer returns. */
  predicate ReadsBack(m: Record) {
    KeysTrimmed(m) && ValuesTrimmed(m) && KeysReadBack(m) && Settled(m)
  }

  /** A parsed date is trimmed and holds no space. */
  lemma ParseDateParsed(val: string)
    ensures Strip(ParseDate(val)) == ParseDate(val) && ' ' !in ParseDate(val)
  {
    ParseDateSpec(val);
    var r := ParseDate(val);
    if ' ' in Strip(val) {
      TokenIsStripped(r);
      assert IsSpace(' ');
    } else {
      StripIdempotent(val);
    }
  }

  /** A trimmed value without a space parses to itself. */
  lemma ParsedDate(val: string)
    requires Strip(val) == val && ' ' !in val
    ensures ParseDate(val) == val
  {
  }

  /** A key some branch writes: trimmed and reading back. */
  predicate Written(k: string) {
    Strip(k) == k && KeyReadsBack(k)
  }

  /** Keys that are all written keys. */
  predicate WrittenKeys(ks: set<string>) {
    forall k :: k in ks ==> Written(k)
  }

  /** The keys a rule may add to the record, given the trimmed label k. */
  function WrittenBy(rule: Rule, k: string): set<string> {
    match rule
    case SplitFullName => {"First Name", "Last Name", "Middle Initial"}
    case Assign(t) => {t}
    case BirthDate => {"Date of Birth"}
    case Objective => {"Investment Goal", "Risk Tolerance"}
    case Advisor => {"Referral Source"}
    case AppendNote => {"Notes"}
    case Passthrough => {k}
  }

  lemma ApplyKeys(out: Record, rule: Rule, k: string, v: string)
    ensures Apply(out, rule, k, v).Keys <= out.Keys + WrittenBy(rule, k)
  {
  }

  lemma NameKeys(first: string, last: string, middle: string)
    requires first == "First Name" && last == "Last Name" && middle == "Middle Initial"
    ensures Written(first) && Written(last) && Written(middle)
  {
    FirstNameKey(first);
    LastNameKey(last);
    MiddleInitialKey(middle);
  }

  lemma GoalWritten(goal: string)
    requires goal == "Investment Goal"
    ensures Written(goal)
  {
    InvestmentGoalKey(goal);
  }

  lemma RiskWritten(risk: string)
    requires risk == "Risk Tolerance"
    ensures Written(risk)
  {
    RiskToleranceKey(risk);
  }

  lemma ReferralWritten(referral: string)
    requires referral == "Referral Source"
    ensures Written(referral)
  {
    ReferralSourceKey(referral);
  }

  lemma NotesWritten(notes: string)
    requires notes == "Notes"
    ensures Written(notes)
  {
    StripOfStripped(notes);
    NotesLabel(notes);
  }

  lemma BirthWritten(birth: string)
    requires birth == "Date of Birth"
    ensures Written(birth)
  {
    DateOfBirthKey(birth);
  }

  lemma WrittenSet(a: string, b: string, c: string)
    requires Written(a) && Written(b) && Written(c)
    ensures WrittenKeys({a}) && WrittenKeys({a, b}) && WrittenKeys({a, b, c})
  {
  }

  /** The keys a rule selected by some label adds are written keys. */
  lemma WrittenByWritten(rule: Rule, k: string)
    requires rule.Assign? ==> Strip(rule.target) == rule.target && RuleOf(rule.target) == rule
    requires rule.Passthrough? ==> Strip(k) == k && RuleOf(k) == Passthrough
    ensures WrittenKeys(WrittenBy(rule, k))
  {
    match rule
    case SplitFullName =>
      var first, last, middle := "First Name", "Last Name", "Middle Initial";
      NameKeys(first, last, middle);
      WrittenSet(first, last, middle);
    case Assign(t) => WrittenSet(t, t, t);
    case BirthDate =>
      var birth := "Date of Birth";
      BirthWritten(birth);
      WrittenSet(birth, birth, birth);
    case Objective =>
      var goal, risk := "Investment Goal", "Risk Tolerance";
      GoalWritten(goal);
      RiskWritten(risk);
      WrittenSet(goal, risk, risk);
    case Advisor =>
      var referral := "Referral Source";
      ReferralWritten(referral);
      WrittenSet(referral, referral, referral);
    case AppendNote =>
      var notes := "Notes";
      NotesWritten(notes);
      WrittenSet(notes, notes, notes);
    case Passthrough => WrittenSet(k, k, k);
  }

  /** A record whose new keys are all written keys keeps its keys trimmed and reading back. */
  lemma GrowKeys(out: Record, m: Record, ks: set<string>)
    requires KeysTrimmed(out) && KeysReadBack(out)
    requires m.Keys <= out.Keys + ks && WrittenKeys(ks)
    ensures KeysTrimmed(m) && KeysReadBack(m)
  {
  }

  lemma SplitNameValues(out: Record, v: string)
    requires ValuesTrimmed(out) && Strip(v) == v
    ensures ValuesTrimmed(Apply(out, SplitFullName, "", v))
  {
    var parts := Split(v);
    if |parts| >= 2 {
      TokenIsStripped(parts[0]);
      TokenIsStripped(parts[|parts| - 1]);
      if |parts| == 3 {
        TokenIsStripped(parts[1]);
      }
    }
  }

  lemma AddNoteValues(out: Record, v: string)
    requires ValuesTrimmed(out) && Strip(v) == v
    ensures ValuesTrimmed(Apply(out, AppendNote, "", v))
  {
    StripIdempotent(Get(out, "Notes") + "  " + v);
  }

  lemma BirthDateValues(out: Record, v: string)
    requires ValuesTrimmed(out)
    ensures ValuesTrimmed(Apply(out, BirthDate, "", v))
  {
    ParseDateParsed(v);
  }

  lemma SetValues(out: Record, rule: Rule, k: string, v: string)
    requires ValuesTrimmed(out) && Strip(v) == v
    requires rule.Assign? || rule.Objective? || rule.Advisor? || rule.Passthrough?
    ensures ValuesTrimmed(Apply(out, rule, k, v))
  {
  }

  /** Every rule writes trimmed values. */
  lemma ApplyValues(out: Record, rule: Rule, k: string, v: string)
    requires ValuesTrimmed(out) && Strip(v) == v
    ensures ValuesTrimmed(Apply(out, rule, k, v))
  {
    if rule.SplitFullName? {
      SplitNameValues(out, v);
    } else if rule.BirthDate? {
      BirthDateValues(out, v);
    } else if rule.AppendNote? {
      AddNoteValues(out, v);
    } else {
      SetValues(out, rule, k, v);
    }
  }

  /** Every rule keeps a goal with its risk tolerance and the date of birth parsed. */
  lemma ApplySettled(out: Record, rule: Rule, k: string, v: string)
    requires Settled(out)
    requires rule.Assign? ==> rule.target != "Date of Birth" && rule.target != "Investment Goal"
    requires rule.Passthrough? ==> k != "Date of Birth" && k != "Investment Goal"
    ensures Settled(Apply(out, rule, k, v))
  {
    if rule.BirthDate? {
      ParseDateParsed(v);
    }
  }

  /** Labels passed through are neither of the two keys with a rule of their own. */
  lemma PassthroughOthers(k: string)
    requires RuleOf(k) == Passthrough
    ensures k != "Date of Birth" && k != "Investment Goal"
  {
    PassthroughNotBirth(k, "Date of Birth");
    PassthroughNotGoal(k, "Investment Goal");
  }

  lemma PassthroughNotBirth(k: string, birth: string)
    requires RuleOf(k) == Passthrough && birth == "Date of Birth"
    ensures k != birth
  {
    DateOfBirthKey(birth);
  }

  lemma PassthroughNotGoal(k: string, goal: string)
    requires RuleOf(k) == Passthrough && goal == "Investment Goal"
    ensures k != goal
  {
    InvestmentGoalKey(goal);
  }

  /** Every step of the normalizer keeps its record reading back. */
  lemma StepReadsBack(out: Record, key: string, val: string)
    requires ReadsBack(out)
    ensures ReadsBack(Step(out, key, val))
  {
    var rule, k, v := RuleOf(key), Strip(key), Strip(val);
    StripIdempotent(val);
    if rule.Assign? {
      AssignedTarget(key);
      AssignTargetRule(rule.target);
      AssignTargetsOthers(rule.target);
    } else if rule.Passthrough? {
      StripIdempotent(key);
      PassthroughOthers(k);
    }
    WrittenByWritten(rule, k);
    ApplyKeys(out, rule, k, v);
    GrowKeys(out, Step(out, key, val), WrittenBy(rule, k));
    ApplyValues(out, rule, k, v);
    ApplySettled(out, rule, k, v);
  }

  /** Every record the normalizer returns reads back. */
  lemma {:induction false} NormalizeReadsBack(items: seq<(string, string)>)
    ensures ReadsBack(Normalize(items))
  {
    if items != [] {
      NormalizeReadsBack(items[..|items| - 1]);
      var last := items[|items| - 1];
      StepReadsBack(Normalize(items[..|items| - 1]), last.0, last.1);
    }
  }

  /** Reading back the keys in done of a record m that reads back gives m on
      those keys, plus the risk tolerance a goal defaults. */
  predicate ReadBackSoFar(out: Record, m: Record, done: set<string>) {
    && out.Keys == done + (if "Investment Goal" in done then {"Risk Tolerance"} else {})
    && forall k :: k in done ==> k in out && k in m && out[k] == m[k]
  }

  /** The labels of a prefix of a raw record, as a set. */
  function LabelSet(labels: seq<string>): (r: set<string>)
    ensures forall k :: k in r <==> k in labels
  {
    set k | k in labels
  }

  /** Applying, to the next key of m, a rule that writes that key itself. */
  lemma ReadBackApply(out: Record, m: Record, done: set<string>, k: string, r: Rule)
    requires Settled(m) && done <= m.Keys && k in m && k !in done && Strip(m[k]) == m[k]
    requires ReadBackSoFar(out, m, done)
    requires || r == Passthrough || r == Assign(k)
             || (r == BirthDate && k == "Date of Birth")
             || (r == Objective && k == "Investment Goal")
             || (r == AppendNote && k == "Notes")
    requires k == "Investment Goal" ==> r == Objective
    ensures ReadBackSoFar(Apply(out, r, k, m[k]), m, done + {k})
  {
    if r == BirthDate {
      ParsedDate(m[k]);
      ReadBackPut(out, m, done, k);
    } else if r == Objective {
      ReadBackGoal(out, m, done, k);
    } else if r == AppendNote {
      assert Get(out, k) == "";
      ReadBackPut(out, m, done, k);
    } else {
      ReadBackPut(out, m, done, k);
    }
  }

  lemma ReadBackPut(out: Record, m: Record, done: set<string>, k: string)
    requires done <= m.Keys && k in m && k !in done && k != "Investment Goal"
    requires ReadBackSoFar(out, m, done)
    ensures ReadBackSoFar(out[k := m[k]], m, done + {k})
  {
  }

  lemma ReadBackGoal(out: Record, m: Record, done: set<string>, k: string)
    requires Settled(m) && done <= m.Keys && k in m && k !in done && k == "Investment Goal"
    requires ReadBackSoFar(out, m, done)
    ensures ReadBackSoFar(SetDefault(SetDefault(out, k, m[k]), "Risk Tolerance", m[k]), m, done + {k})
  {
  }

  lemma GoalKeyRule(k: string)
    ensures k == "Investment Goal" ==> RuleOf(k) == Objective
  {
    if k == "Investment Goal" {
      InvestmentGoalKey(k);
    }
  }

  /** Reading back one more key of m. */
  lemma ReadBackStep(out: Record, m: Record, done: set<string>, k: string)
    requires ReadsBack(m) && done <= m.Keys && k in m && k !in done
    requires ReadBackSoFar(out, m, done)
    ensures ReadBackSoFar(Step(out, k, m[k]), m, done + {k})
  {
    var v := m[k];
    assert Strip(k) == k && Strip(v) == v && KeyReadsBack(k);
    GoalKeyRule(k);
    ReadBackApply(out, m, done, k, RuleOf(k));
  }

  /** Re-normalizing one more item of a raw record holding a record that reads back. */
  lemma ReadBackNext(items: seq<(string, string)>, labels: seq<string>, m: Record, i: nat)
    requires |items| == |labels| && i < |labels| && ReadsBack(m)
    requires forall j :: 0 <= j < |labels| ==> labels[j] in m && items[j] == (labels[j], m[labels[j]])
    requires forall j, l :: 0 <= j < l < |labels| ==> labels[j] != labels[l]
    requires ReadBackSoFar(Normalize(items[..i]), m, LabelSet(labels[..i]))
    ensures ReadBackSoFar(Normalize(items[..i + 1]), m, LabelSet(labels[..i + 1]))
  {
    LabelSetSnoc(labels, i);
    NormalizePrefixSnoc(items, i);
    ReadBackStep(Normalize(items[..i]), m, LabelSet(labels[..i]), labels[i]);
  }

  lemma LabelSetSnoc(labels: seq<string>, i: nat)
    requires i < |labels| && forall j, l :: 0 <= j < l < |labels| ==> labels[j] != labels[l]
    ensures labels[i] !in LabelSet(labels[..i])
    ensures LabelSet(labels[..i + 1]) == LabelSet(labels[..i]) + {labels[i]}
  {
    assert labels[..i + 1] == labels[..i] + [labels[i]];
  }

  /** Re-normalizing the items of a raw record holding a normalized record,
      in whatever order its labels were inserted, gives that record back. */
  lemma {:induction false} ReadBackPrefix(raw: RawRecord, i: nat)
    requires raw.Valid() && ReadsBack(raw.values) && i <= |raw.labels|
    ensures ReadBackSoFar(Normalize(raw.Items()[..i]), raw.values, LabelSet(raw.labels[..i]))
  {
    if i > 0 {
      ReadBackPrefix(raw, i - 1);
      ReadBackNext(raw.Items(), raw.labels, raw.values, i - 1);
    } else {
      assert LabelSet(raw.labels[..i]) == {};
    }
  }

  /** Normalizing is idempotent: putting a normalized record back into a raw
      record, in any label order, and normalizing again changes nothing. */
  lemma NormalizeIdempotent(items: seq<(string, string)>, raw: RawRecord)
    requires raw.Valid() && raw.values == Normalize(items)
    ensures Normalize(raw.Items()) == Normalize(items)
  {
    NormalizeReadsBack(items);
    ReadBackAll(raw);
    ReadBackDone(Normalize(raw.Items()), raw.values);
  }

  lemma ReadBackAll(raw: RawRecord)
    requires raw.Valid() && ReadsBack(raw.values)
    ensures ReadBackSoFar(Normalize(raw.Items()), raw.values, raw.values.Keys)
  {
    ReadBackPrefix(raw, |raw.labels|);
    assert raw.Items()[..|raw.labels|] == raw.Items();
    assert raw.labels[..|raw.labels|] == raw.labels;
    LabelsAreKeys(raw);
  }

  lemma LabelsAreKeys(raw: RawRecord)
    requires raw.Valid()
    ensures LabelSet(raw.labels) == raw.values.Keys
  {
  }

  /** Having read back every key of m gives m itself. */
  lemma ReadBackDone(out: Record, m: Record)
    requires Settled(m) && ReadBackSoFar(out, m, m.Keys)
    ensures out == m
  {
  }
}

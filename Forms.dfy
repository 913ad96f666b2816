/** pdf_filler.py: the field maps written into the four IWS PDF forms, the
    name and address splitters they use, the write rule applied to a form's
    widgets, and the dispatcher on the form key. A form is modelled as its
    pages of named widgets; reading and saving PDF files is not. */
module Forms {
  import opened Strings
  import opened Decimal
  import opened Results
  import opened Intake
  import Household

  // ---------------------------------------------------------------------------
  // _split_name
  // ---------------------------------------------------------------------------

  datatype Name = Name(first: string, mi: string, last: string)

  /** (first, middle initial, last) of a full name: two tokens have no
      middle; from three tokens on, the middle is the upper-cased first
      character of token 2 and the last name joins all later tokens. */
  function SplitName(full: string): (n: Name)
    ensures NoSpace(n.first) && NoSpace(n.mi) && |n.mi| <= 1
    ensures n.first == "" ==> n == Name("", "", "")
  {
    var parts := Split(Strip(full));
    if parts == [] then Name("", "", "")
    else if |parts| == 1 then Name(parts[0], "", "")
    else if |parts| == 2 then Name(parts[0], "", parts[1])
    else Name(parts[0], [UpperChar(parts[1][0])], Join(" ", parts[2..]))
  }

  /** Splitting a name written as tokens joined by single spaces. */
  lemma SplitNameOfTokens(toks: seq<string>)
    requires forall i :: 0 <= i < |toks| ==> IsToken(toks[i])
    ensures var n := SplitName(Join(" ", toks));
      && (toks == [] ==> n == Name("", "", ""))
      && (|toks| >= 1 ==> n.first == toks[0])
      && (|toks| <= 2 ==> n.mi == "")
      && (|toks| == 2 ==> n.last == toks[1])
      && (|toks| >= 3 ==> toks[1] != [] && n.mi == [UpperChar(toks[1][0])] && n.last == Join(" ", toks[2..]))
  {
    if toks != [] {
      forall i | 0 <= i < |toks| ensures toks[i] != [] && IsStripped(toks[i]) {
        TokenIsStripped(toks[i]);
      }
      JoinOfStripped(" ", toks);
      StripOfStripped(Join(" ", toks));
    }
    SplitJoin(toks);
  }

  /** A name that _full_name wrote from a first name, a middle name and a
      last name, each one token, splits back into the first name, the
      upper-cased initial of the middle name and the last name. */
  lemma SplitNameOfFullName(c: Record)
    requires IsToken(Get(c, "First Name")) && IsToken(Get(c, "Middle Initial")) && IsToken(Get(c, "Last Name"))
    ensures SplitName(Household.FullName(c)) ==
      Name(Get(c, "First Name"), [UpperChar(Get(c, "Middle Initial")[0])], Get(c, "Last Name"))
  {
    var toks := [Get(c, "First Name"), Get(c, "Middle Initial"), Get(c, "Last Name")];
    assert Household.NonEmptyParts(toks) == toks by {
      assert Household.NonEmptyParts(toks[2..]) == toks[2..];
      assert Household.NonEmptyParts(toks[1..]) == [toks[1]] + toks[2..];
    }
    forall i | 0 <= i < 3 ensures toks[i] != [] && IsStripped(toks[i]) {
      TokenIsStripped(toks[i]);
    }
    JoinOfStripped(" ", toks);
    StripOfStripped(Join(" ", toks));
    SplitNameOfTokens(toks);
    assert toks[2..] == [toks[2]];
  }

  /** The intake normalizer and _split_name disagree on a name of four
      tokens: the normalizer keeps the first and the last token as First Name
      and Last Name and sets no middle initial, while _split_name takes the
      initial of the second token and keeps the last two as the last name
      ("Mary Ann Van Dyke": "Dyke" against "Van Dyke"). */
  lemma SplittersDiffer(a: string, b: string, c: string, d: string)
    requires IsToken(a) && IsToken(b) && IsToken(c) && IsToken(d)
    ensures var v := a + " " + b + " " + c + " " + d;
      && Step(map[], "Full Name", v) == map["First Name" := a, "Last Name" := d]
      && SplitName(v) == Name(a, [UpperChar(b[0])], c + " " + d)
  {
    SplitNameOfFour(a, b, c, d);
    NormalizedFour(a, b, c, d);
  }

  /** The normalizer on a full name of four tokens. */
  lemma NormalizedFour(a: string, b: string, c: string, d: string)
    requires IsToken(a) && IsToken(b) && IsToken(c) && IsToken(d)
    ensures Step(map[], "Full Name", a + " " + b + " " + c + " " + d) == map["First Name" := a, "Last Name" := d]
  {
    var v := a + " " + b + " " + c + " " + d;
    FullNameRule();
    FourTokens(a, b, c, d);
    assert Split(Strip(v)) == [a, b, c, d];
    assert Step(map[], "Full Name", v) == map["First Name" := a]["Last Name" := d];
  }

  /** Four tokens joined by single spaces: stripped, and split back. */
  lemma FourTokens(a: string, b: string, c: string, d: string)
    requires IsToken(a) && IsToken(b) && IsToken(c) && IsToken(d)
    ensures var v := a + " " + b + " " + c + " " + d;
      && Join(" ", [a, b, c, d]) == v && IsStripped(v) && Strip(v) == v && Split(v) == [a, b, c, d]
  {
    var toks := [a, b, c, d];
    assert Join(" ", toks[3..]) == d;
    assert Join(" ", toks[2..]) == c + " " + d;
    assert Join(" ", toks[1..]) == b + " " + (c + " " + d);
    assert Join(" ", toks) == a + " " + b + " " + c + " " + d;
    forall i | 0 <= i < 4 ensures toks[i] != [] && IsStripped(toks[i]) {
      TokenIsStripped(toks[i]);
    }
    JoinOfStripped(" ", toks);
    StripOfStripped(Join(" ", toks));
    SplitJoin(toks);
  }

  /** A name of four single-space-separated tokens. */
  lemma SplitNameOfFour(a: string, b: string, c: string, d: string)
    requires IsToken(a) && IsToken(b) && IsToken(c) && IsToken(d)
    ensures SplitName(a + " " + b + " " + c + " " + d) == Name(a, [UpperChar(b[0])], c + " " + d)
  {
    var toks := [a, b, c, d];
    FourTokens(a, b, c, d);
    SplitNameOfTokens(toks);
    assert toks[2..] == [c, d];
  }

  lemma SampleNormalized()
    ensures Step(map[], "Full Name", "Mary Ann Van Dyke") == map["First Name" := "Mary", "Last Name" := "Dyke"]
  {
    SampleNameTokens();
    FullNameRule();
    StripOfStripped("Mary Ann Van Dyke");
    var r := Step(map[], "Full Name", "Mary Ann Van Dyke");
    assert r == map["First Name" := "Mary"]["Last Name" := "Dyke"];
  }

  /** The four tokens of the sample name. */
  lemma SampleNameTokens()
    ensures Join(" ", ["Mary", "Ann", "Van", "Dyke"]) == "Mary Ann Van Dyke"
    ensures IsStripped("Mary Ann Van Dyke")
    ensures Split("Mary Ann Van Dyke") == ["Mary", "Ann", "Van", "Dyke"]
  {
    var toks := ["Mary", "Ann", "Van", "Dyke"];
    assert Join(" ", toks) == "Mary Ann Van Dyke";
    assert IsToken(toks[0]) && IsToken(toks[1]) && IsToken(toks[2]) && IsToken(toks[3]);
    SplitJoin(toks);
  }

  /** The label "Full Name" selects the full-name rule. */
  lemma FullNameRule()
    ensures RuleOf("Full Name") == SplitFullName
  {
    assert Lower(Strip("Full Name")) == "full name" by {
      StripOfStripped("Full Name");
      FullNameLowered();
    }
    ClassifyFullName("full name");
  }

  lemma FullNameLowered()
    ensures Lower("Full Name") == "full name"
  {
    var l := Lower("Full Name");
    assert l[0] == 'f' && l[5] == 'n';
  }

  // ---------------------------------------------------------------------------
  // _parse_address
  // ---------------------------------------------------------------------------

  datatype Address = Address(street: string, city: string, state: string, zip: string, country: string)

  /** [p.strip() for p in parts] */
  function StripAll(parts: seq<string>): (r: seq<string>)
    ensures |r| == |parts| && forall i :: 0 <= i < |parts| ==> r[i] == Strip(parts[i])
  {
    seq(|parts|, i requires 0 <= i < |parts| => Strip(parts[i]))
  }

  /** The best-effort reading of "Street, City, ST ZIP": the country is
      always "USA"; a string without a comma is all street. */
  function ParseAddress(raw: string): (a: Address)
    ensures a.country == "USA"
    ensures raw == "" ==> a == Address("", "", "", "", "USA")
    ensures ',' !in raw ==> a == Address(raw, "", "", "", "USA")
    ensures NoSpace(a.state) && NoSpace(a.zip)
  {
    if raw == "" then Address("", "", "", "", "USA")
    else
      var parts := StripAll(SplitOn(raw, ','));
      if |parts| >= 3 then
        var stZip := Split(Strip(parts[2]));
        Address(parts[0], parts[1],
                if stZip != [] then stZip[0] else "",
                if |stZip| > 1 then stZip[1] else "", "USA")
      else if |parts| == 2 then Address(parts[0], parts[1], "", "", "USA")
      else Address(raw, "", "", "", "USA")
  }

  /** Stripping a space put before a stripped string gives the string. */
  lemma StripSpaced(s: string)
    requires IsStripped(s)
    ensures Strip(" " + s) == s
  {
    assert (" " + s)[1..] == s;
    assert TrimLeft(" " + s) == TrimLeft(s) == s;
    StripOfStripped(s);
  }

  /** "street, city, ST ZIP" is its three pieces joined with commas. */
  lemma FormattedPieces(street: string, city: string, stZip: string)
    ensures Join([','], [street, " " + city, " " + stZip]) == street + ", " + city + ", " + stZip
  {
    var pieces := [street, " " + city, " " + stZip];
    assert pieces[1..][1..] == [" " + stZip];
    assert Join([','], pieces[1..]) == (" " + city) + [','] + (" " + stZip);
    assert street + [','] + ((" " + city) + [','] + (" " + stZip)) == street + ", " + city + ", " + stZip;
  }

  /** "ST ZIP" as the third piece, after stripping, splits into state and zip. */
  lemma StateZipPiece(state: string, zip: string)
    requires IsToken(state) && IsToken(zip)
    ensures var stZip := state + " " + zip;
      && IsStripped(stZip) && Strip(" " + stZip) == stZip && Split(Strip(stZip)) == [state, zip]
  {
    var stZip := state + " " + zip;
    assert Join(" ", [state, zip]) == stZip;
    TokenIsStripped(state);
    TokenIsStripped(zip);
    JoinOfStripped(" ", [state, zip]);
    StripSpaced(stZip);
    StripOfStripped(stZip);
    SplitJoin([state, zip]);
  }

  /** An address written as "street, city, ST ZIP" is read back into its parts. */
  lemma ParseFormatted(street: string, city: string, state: string, zip: string)
    requires IsStripped(street) && IsStripped(city) && ',' !in street && ',' !in city
    requires IsToken(state) && IsToken(zip) && ',' !in state && ',' !in zip
    ensures ParseAddress(street + ", " + city + ", " + state + " " + zip) == Address(street, city, state, zip, "USA")
  {
    var stZip := state + " " + zip;
    var raw := street + ", " + city + ", " + stZip;
    assert raw == street + ", " + city + ", " + state + " " + zip;
    assert raw[|street|] == ',';
    StateZipPiece(state, zip);
    StrippedPieces(street, city, stZip);
    ParseOfThreeParts(raw, street, city, stZip);
  }

  /** The formatted address, split on its commas and stripped, is its parts. */
  lemma StrippedPieces(street: string, city: string, stZip: string)
    requires IsStripped(street) && IsStripped(city) && IsStripped(stZip)
    requires ',' !in street && ',' !in city && ',' !in stZip
    ensures StripAll(SplitOn(street + ", " + city + ", " + stZip, ',')) == [street, city, stZip]
  {
    var pieces := [street, " " + city, " " + stZip];
    var parts := SplitOn(street + ", " + city + ", " + stZip, ',');
    assert parts == pieces by {
      FormattedPieces(street, city, stZip);
      assert ',' !in " " + city && ',' !in " " + stZip;
      SplitOnJoin(pieces, ',');
    }
    var r := StripAll(parts);
    assert r[0] == street by {
      StripOfStripped(street);
    }
    assert r[1] == city by {
      StripSpaced(city);
    }
    assert r[2] == stZip by {
      StripSpaced(stZip);
    }
  }

  /** An address with three comma-separated parts: street, city, "ST ZIP". */
  lemma ParseOfThreeParts(raw: string, street: string, city: string, stZip: string)
    requires raw != "" && StripAll(SplitOn(raw, ',')) == [street, city, stZip]
    requires IsStripped(stZip)
    ensures var st := Split(stZip);
      ParseAddress(raw) == Address(street, city, if st != [] then st[0] else "", if |st| > 1 then st[1] else "", "USA")
  {
    StripOfStripped(stZip);
  }

  /** The address of the sample client. */
  lemma ParseSampleAddress()
    ensures ParseAddress("1847 Lakeshire Dr, Naperville, IL 60540") ==
      Address("1847 Lakeshire Dr", "Naperville", "IL", "60540", "USA")
  {
    SampleAddressPieces();
    SampleAddressParts();
    ParseFormatted("1847 Lakeshire Dr", "Naperville", "IL", "60540");
  }

  lemma SampleAddressPieces()
    ensures "1847 Lakeshire Dr" + ", " + "Naperville" + ", " + "IL" + " " + "60540" == "1847 Lakeshire Dr, Naperville, IL 60540"
  {
  }

  lemma SampleAddressParts()
    ensures IsStripped("1847 Lakeshire Dr") && IsStripped("Naperville") && ',' !in "1847 Lakeshire Dr" && ',' !in "Naperville"
    ensures IsToken("IL") && IsToken("60540") && ',' !in "IL" && ',' !in "60540"
  {
  }

  // ---------------------------------------------------------------------------
  // Shared helpers of the field-map builders
  // ---------------------------------------------------------------------------

  /** dict.get(key, default) */
  function GetOr(m: Record, key: string, default: string): (r: string)
    ensures key in m ==> r == m[key]
    ensures key !in m ==> r == default
  {
    if key in m then m[key] else default
  }

  /** Nested dict.get calls: the value of the first key present, even when
      empty; "" when none is. */
  function FirstPresent(m: Record, keys: seq<string>): (r: string)
    ensures (forall i :: 0 <= i < |keys| ==> keys[i] !in m) ==> r == ""
    ensures forall i :: 0 <= i < |keys| && keys[i] in m && (forall j :: 0 <= j < i ==> keys[j] !in m) ==> r == m[keys[i]]
  {
    if keys == [] then ""
    else if keys[0] in m then m[keys[0]]
    else FirstPresent(m, keys[1..])
  }

  /** `a or b` on strings. */
  function Or(a: string, b: string): string {
    if a != "" then a else b
  }

  /** A dict argument that Python treats as true: given and non-empty. */
  predicate Truthy(m: Option<Record>) {
    m.Some? && m.value != map[]
  }

  /** `m or {}` */
  function OrEmpty(m: Option<Record>): (r: Record)
    ensures r == map[] || Truthy(m)
  {
    if Truthy(m) then m.value else map[]
  }

  // ---------------------------------------------------------------------------
  // fill_personal_app
  // ---------------------------------------------------------------------------

  /** The co-holder's name and birth date: those of the co-client when it
      names one, else the client's Co-Account Holder entries. */
  function CoHolder(client: Record, coClient: Option<Record>): (r: (string, string))
    ensures Truthy(coClient) && Get(coClient.value, "Full Name") != "" ==>
      r == (Get(coClient.value, "Full Name"), Get(coClient.value, "Date of Birth"))
    ensures !(Truthy(coClient) && Get(coClient.value, "Full Name") != "") ==>
      r == (Get(client, "Co-Account Holder Name"), Get(client, "Co-Account Holder DOB"))
  {
    var (name, dob) := if Truthy(coClient) then (Get(coClient.value, "Full Name"), Get(coClient.value, "Date of Birth")) else ("", "");
    if name != "" then (name, dob)
    else (Get(client, "Co-Account Holder Name"), Get(client, "Co-Account Holder DOB"))
  }

  /** The primary holder's fields, from its split name, its parsed address
      and its other entries, with the signing date. */
  function PersonalBase(n: Name, a: Address, dob: string, ssn: string, phone: string,
                        email: string, employer: string, today: string): map<string, string>
  {
    map[
      "PI_FirstName" := n.first, "PI_MI" := n.mi, "PI_LastName" := n.last,
      "PI_DOB" := dob, "PI_SSN" := ssn, "PI_PrimaryMobilePhone" := phone, "PI_Email" := email,
      "PI_PermAddress" := a.street, "PI_PermAddressCity" := a.city,
      "PI_PermAddressState" := a.state, "PI_PermAddressZip" := a.zip,
      "PI_PermAddressCountry" := a.country,
      "PI_MailingAddress" := a.street, "PI_MailingAddressCity" := a.city,
      "PI_MailingAddressState" := a.state, "PI_MailingAddressZip" := a.zip,
      "PI_MailingAddressCountry" := a.country,
      "PI_EIAEmployerName" := employer,
      "AS_Date03" := today]
  }

  /** The primary holder's mailing address repeats its permanent address. */
  lemma PersonalBaseValues(n: Name, a: Address, dob: string, ssn: string, phone: string,
                           email: string, employer: string, today: string)
    ensures var f := PersonalBase(n, a, dob, ssn, phone, email, employer, today);
      && f["PI_MailingAddress"] == f["PI_PermAddress"] == a.street
      && f["PI_MailingAddressCity"] == f["PI_PermAddressCity"] == a.city
      && f["PI_MailingAddressState"] == f["PI_PermAddressState"] == a.state
      && f["PI_MailingAddressZip"] == f["PI_PermAddressZip"] == a.zip
      && f["PI_MailingAddressCountry"] == f["PI_PermAddressCountry"] == a.country
  {
  }

  /** The primary holder's name parts and signing date land in their own fields. */
  lemma PersonalBaseName(n: Name, a: Address, dob: string, ssn: string, phone: string,
                         email: string, employer: string, today: string)
    ensures var f := PersonalBase(n, a, dob, ssn, phone, email, employer, today);
      && f["PI_FirstName"] == n.first && f["PI_MI"] == n.mi && f["PI_LastName"] == n.last
      && f["AS_Date03"] == today
  {
  }

  /** The co-holder's fields: its split name and entries, its parsed address
      with each empty part taken from the primary's address, the country
      "USA" and the second signing date. */
  function PersonalCoHolder(n2: Name, a2: Address, a: Address, dob: string, ssn: string,
                            phone: string, email: string, today: string): map<string, string>
  {
    map[
      "PI_FirstName02" := n2.first, "PI_MI02" := n2.mi, "PI_LastName02" := n2.last,
      "PI_DOB02" := dob, "PI_SSN02" := ssn, "PI_PrimaryMobilePhone02" := phone, "PI_Email02" := email,
      "PI_PermAddress02" := Or(a2.street, a.street), "PI_PermAddressCity02" := Or(a2.city, a.city),
      "PI_PermAddressState02" := Or(a2.state, a.state), "PI_PermAddressZip02" := Or(a2.zip, a.zip),
      "PI_PermAddressCountry02" := "USA",
      "PI_MailingAddress02" := Or(a2.street, a.street), "PI_MailingAddressCity02" := Or(a2.city, a.city),
      "PI_MailingAddressState02" := Or(a2.state, a.state), "PI_MailingAddressZip02" := Or(a2.zip, a.zip),
      "PI_MailingAddressCountry02" := "USA",
      "AS_Date04" := today]
  }

  /** Each part of the co-holder's address is its own when non-empty, else the
      primary's; its mailing address repeats it. */
  lemma PersonalCoHolderValues(n2: Name, a2: Address, a: Address, dob: string, ssn: string,
                               phone: string, email: string, today: string)
    ensures var f := PersonalCoHolder(n2, a2, a, dob, ssn, phone, email, today);
      && f["PI_MailingAddress02"] == f["PI_PermAddress02"] == (if a2.street != "" then a2.street else a.street)
      && f["PI_MailingAddressCity02"] == f["PI_PermAddressCity02"] == (if a2.city != "" then a2.city else a.city)
      && f["PI_MailingAddressState02"] == f["PI_PermAddressState02"] == (if a2.state != "" then a2.state else a.state)
      && f["PI_MailingAddressZip02"] == f["PI_PermAddressZip02"] == (if a2.zip != "" then a2.zip else a.zip)
      && f["PI_MailingAddressCountry02"] == f["PI_PermAddressCountry02"] == "USA"
  {
  }

  /** The co-holder's name, birth date and signing date. */
  lemma PersonalCoHolderHas(n2: Name, a2: Address, a: Address, dob: string, ssn: string,
                            phone: string, email: string, today: string)
    ensures var f := PersonalCoHolder(n2, a2, a, dob, ssn, phone, email, today);
      && "PI_FirstName02" in f && "AS_Date04" in f
      && f["PI_FirstName02"] == n2.first && f["PI_MI02"] == n2.mi && f["PI_LastName02"] == n2.last
      && f["PI_DOB02"] == dob && f["AS_Date04"] == today
  {
  }

  /** The primary holder's fields of fill_personal_app. */
  function PersonalPrimaryFields(client: Record, today: string): map<string, string> {
    PersonalBase(SplitName(Get(client, "Full Name")), ParseAddress(Get(client, "Address")),
                 Get(client, "Date of Birth"), FirstPresent(client, ["SSN", "Social Security Number"]),
                 FirstPresent(client, ["Phone", "Mobile Phone"]), Get(client, "Email"),
                 FirstPresent(client, ["Employer", "Employer Name"]), today)
  }

  /** The co-holder's fields of fill_personal_app: the co-client's entries
      (none when there is no co-client), and its address, which defaults to
      the primary's raw address. */
  function PersonalCoFields(client: Record, coClient: Option<Record>, today: string): map<string, string> {
    var (coName, coDob) := CoHolder(client, coClient);
    var co := OrEmpty(coClient);
    var addr := Get(client, "Address");
    PersonalCoHolder(SplitName(coName), ParseAddress(GetOr(co, "Address", addr)), ParseAddress(addr),
                     coDob, FirstPresent(co, ["SSN", "Social Security Number"]),
                     FirstPresent(co, ["Phone", "Mobile Phone"]), Get(co, "Email"), today)
  }

  /** The fields of fill_personal_app: the co-holder's fields are added only
      when a co-holder name is found. */
  function PersonalAppFields(client: Record, coClient: Option<Record>, today: string): map<string, string> {
    var base := PersonalPrimaryFields(client, today);
    if CoHolder(client, coClient).0 != "" then base + PersonalCoFields(client, coClient, today) else base
  }

  /** The last character of a key is one of cs. The co-holder's and the
      second trustee's keys end in "02" (the co-holder's second date in
      "04"), and no key of the primary holder or of the trust ends in 2 or 4,
      so the added fields never replace the primary's. */
  predicate EndsIn(k: string, cs: string) {
    k != [] && k[|k| - 1] in cs
  }

  lemma PersonalBaseKeysEnd(n: Name, a: Address, dob: string, ssn: string, phone: string,
                            email: string, employer: string, today: string)
    ensures forall k :: k in PersonalBase(n, a, dob, ssn, phone, email, employer, today) ==> !EndsIn(k, "24")
  {
  }

  lemma PersonalCoHolderKeysEnd(n2: Name, a2: Address, a: Address, dob: string, ssn: string,
                                phone: string, email: string, today: string)
    ensures forall k :: k in PersonalCoHolder(n2, a2, a, dob, ssn, phone, email, today) ==> EndsIn(k, "24")
  {
  }

  /** The primary's keys and the co-holder's keys are told apart by their
      last character. */
  lemma PersonalKeysApart(client: Record, coClient: Option<Record>, today: string)
    ensures forall k :: k in PersonalPrimaryFields(client, today) ==> !EndsIn(k, "24")
    ensures forall k :: k in PersonalCoFields(client, coClient, today) ==> EndsIn(k, "24")
  {
    PersonalBaseKeysEnd(SplitName(Get(client, "Full Name")), ParseAddress(Get(client, "Address")),
                        Get(client, "Date of Birth"), FirstPresent(client, ["SSN", "Social Security Number"]),
                        FirstPresent(client, ["Phone", "Mobile Phone"]), Get(client, "Email"),
                        FirstPresent(client, ["Employer", "Employer Name"]), today);
    var (coName, coDob) := CoHolder(client, coClient);
    var co := OrEmpty(coClient);
    var addr := Get(client, "Address");
    PersonalCoHolderKeysEnd(SplitName(coName), ParseAddress(GetOr(co, "Address", addr)), ParseAddress(addr),
                            coDob, FirstPresent(co, ["SSN", "Social Security Number"]),
                            FirstPresent(co, ["Phone", "Mobile Phone"]), Get(co, "Email"), today);
  }

  /** With or without a co-holder, every field of the primary holder is
      written as the primary's builder made it. */
  lemma PersonalPrimaryKept(client: Record, coClient: Option<Record>, today: string)
    ensures var f, base := PersonalAppFields(client, coClient, today), PersonalPrimaryFields(client, today);
      forall k :: k in base ==> k in f && f[k] == base[k]
  {
    PersonalKeysApart(client, coClient, today);
  }

  /** With a co-holder name found, every field of the co-holder is written as
      the co-holder's builder made it; without one the form holds the
      primary's fields alone. */
  lemma PersonalCoHolderKept(client: Record, coClient: Option<Record>, today: string)
    ensures var f, co, coName := PersonalAppFields(client, coClient, today), PersonalCoFields(client, coClient, today), CoHolder(client, coClient).0;
      && (coName != "" ==> forall k :: k in co ==> k in f && f[k] == co[k])
      && (coName == "" ==> f == PersonalPrimaryFields(client, today))
  {
  }

  /** The co-holder's name and second signing date are on the form exactly
      when a co-holder name is found. */
  lemma PersonalCoHolderAdded(client: Record, coClient: Option<Record>, today: string)
    ensures var f, coName := PersonalAppFields(client, coClient, today), CoHolder(client, coClient).0;
      && ("PI_FirstName02" in f <==> coName != "")
      && ("AS_Date04" in f <==> coName != "")
  {
    var f, coName := PersonalAppFields(client, coClient, today), CoHolder(client, coClient).0;
    PersonalKeysApart(client, coClient, today);
    assert EndsIn("PI_FirstName02", "24") && EndsIn("AS_Date04", "24");
    if coName != "" {
      var (_, coDob) := CoHolder(client, coClient);
      var co := OrEmpty(coClient);
      var addr := Get(client, "Address");
      PersonalCoHolderHas(SplitName(coName), ParseAddress(GetOr(co, "Address", addr)), ParseAddress(addr),
                          coDob, FirstPresent(co, ["SSN", "Social Security Number"]),
                          FirstPresent(co, ["Phone", "Mobile Phone"]), Get(co, "Email"), today);
      assert "PI_FirstName02" in PersonalCoFields(client, coClient, today);
    }
  }

  // ---------------------------------------------------------------------------
  // fill_trust_app
  // ---------------------------------------------------------------------------

  /** The trust's and the primary trustee's fields, from the trustee's split
      name and parsed address and the trust's entries. */
  function TrustBase(n: Name, a: Address, trustName: string, tin: string, trustDate: string,
                     trustState: string, dob: string, ssn: string, email: string, phone: string,
                     today: string): map<string, string>
  {
    map[
      "ASU_NameofTrust" := trustName, "ASU_SSTIN" := tin, "ASU_DateOfTrust" := trustDate,
      "ASU_StateWhereOrganized" := Or(trustState, a.state),
      "ASU_PermanentAddress" := a.street, "ASU_PermanentAddressCity" := a.city,
      "ASU_PermanentAddressState" := a.state, "ASU_PermanentAddressZip" := a.zip,
      "ASU_PermanentAddressCountry" := a.country,
      "PI_FirstName" := n.first, "PI_MI" := n.mi, "PI_LastName" := n.last,
      "PI_DOB" := dob, "PI_SSN" := ssn, "PI_Email" := email, "PI_PrimaryMobilePhone" := phone,
      "PI_PermAddress" := a.street, "PI_PermAddressCity" := a.city,
      "PI_PermAddressState" := a.state, "PI_PermAddressZip" := a.zip,
      "PI_PermAddressCountry" := a.country,
      "CT_Date01" := today]
  }

  /** The second trustee's fields; empty address parts are the client's. */
  function SecondTrustee(n2: Name, a2: Address, a: Address, dob: string, ssn: string,
                         email: string, phone: string, today: string): map<string, string>
  {
    map[
      "PI_FirstName02" := n2.first, "PI_MI02" := n2.mi, "PI_LastName02" := n2.last,
      "PI_DOB02" := dob, "PI_SSN02" := ssn, "PI_Email02" := email, "PI_PrimaryMobilePhone02" := phone,
      "PI_PermAddress02" := Or(a2.street, a.street), "PI_PermAddressCity02" := Or(a2.city, a.city),
      "PI_PermAddressState02" := Or(a2.state, a.state), "PI_PermAddressZip02" := Or(a2.zip, a.zip),
      "PI_PermAddressCountry02" := "USA",
      "CT_Date02" := today]
  }

  function TrustPrimaryFields(client: Record, today: string): map<string, string> {
    TrustBase(SplitName(Get(client, "Full Name")), ParseAddress(Get(client, "Address")),
              FirstPresent(client, ["Trust Name", "Entity Name", "Full Name"]),
              FirstPresent(client, ["Tax ID", "EIN", "SSN"]),
              FirstPresent(client, ["Trust Date", "Date of Trust"]),
              Get(client, "State"), Get(client, "Date of Birth"), Get(client, "SSN"),
              Get(client, "Email"), Get(client, "Phone"), today)
  }

  /** The second trustee's fields; its address defaults to the client's. */
  function TrusteeFields(client: Record, trustee2: Record, today: string): map<string, string> {
    var addr := Get(client, "Address");
    SecondTrustee(SplitName(Get(trustee2, "Full Name")), ParseAddress(GetOr(trustee2, "Address", addr)),
                  ParseAddress(addr), Get(trustee2, "Date of Birth"), Get(trustee2, "SSN"),
                  Get(trustee2, "Email"), Get(trustee2, "Phone"), today)
  }

  /** The fields of fill_trust_app: the second trustee's only when one is given. */
  function TrustAppFields(client: Record, trustee2: Option<Record>, today: string): map<string, string> {
    var base := TrustPrimaryFields(client, today);
    if Truthy(trustee2) then base + TrusteeFields(client, trustee2.value, today) else base
  }

  /** The trust's name, id and date are the first of their entries present;
      the state of organization is the State entry unless it is empty. */
  lemma TrustBaseValues(n: Name, a: Address, trustName: string, tin: string, trustDate: string,
                        trustState: string, dob: string, ssn: string, email: string, phone: string,
                        today: string)
    ensures var f := TrustBase(n, a, trustName, tin, trustDate, trustState, dob, ssn, email, phone, today);
      && f["ASU_NameofTrust"] == trustName && f["ASU_SSTIN"] == tin && f["ASU_DateOfTrust"] == trustDate
      && f["ASU_StateWhereOrganized"] == (if trustState != "" then trustState else a.state)
      && f["PI_FirstName"] == n.first && f["PI_LastName"] == n.last
      && f["CT_Date01"] == today
  {
  }

  lemma TrustBaseKeysEnd(n: Name, a: Address, trustName: string, tin: string, trustDate: string,
                         trustState: string, dob: string, ssn: string, email: string, phone: string,
                         today: string)
    ensures forall k :: k in TrustBase(n, a, trustName, tin, trustDate, trustState, dob, ssn, email, phone, today) ==> !EndsIn(k, "2")
  {
  }

  lemma SecondTrusteeKeysEnd(n2: Name, a2: Address, a: Address, dob: string, ssn: string,
                             email: string, phone: string, today: string)
    ensures forall k :: k in SecondTrustee(n2, a2, a, dob, ssn, email, phone, today) ==> EndsIn(k, "2")
  {
  }

  /** The second trustee's name and signing date, and an address whose empty
      parts are the client's. */
  lemma SecondTrusteeHas(n2: Name, a2: Address, a: Address, dob: string, ssn: string,
                         email: string, phone: string, today: string)
    ensures var f := SecondTrustee(n2, a2, a, dob, ssn, email, phone, today);
      && "PI_FirstName02" in f && "CT_Date02" in f
      && f["PI_FirstName02"] == n2.first && f["PI_MI02"] == n2.mi && f["PI_LastName02"] == n2.last
      && f["PI_DOB02"] == dob && f["PI_SSN02"] == ssn && f["PI_Email02"] == email
      && f["PI_PrimaryMobilePhone02"] == phone && f["CT_Date02"] == today
      && f["PI_PermAddress02"] == (if a2.street != "" then a2.street else a.street)
      && f["PI_PermAddressCity02"] == (if a2.city != "" then a2.city else a.city)
      && f["PI_PermAddressState02"] == (if a2.state != "" then a2.state else a.state)
      && f["PI_PermAddressZip02"] == (if a2.zip != "" then a2.zip else a.zip)
      && f["PI_PermAddressCountry02"] == "USA"
  {
  }

  /** The trust's keys and the second trustee's keys are told apart by their
      last character. */
  lemma TrustKeysApart(client: Record, trustee2: Record, today: string)
    ensures forall k :: k in TrustPrimaryFields(client, today) ==> !EndsIn(k, "2")
    ensures forall k :: k in TrusteeFields(client, trustee2, today) ==> EndsIn(k, "2")
  {
    TrustBaseKeysEnd(SplitName(Get(client, "Full Name")), ParseAddress(Get(client, "Address")),
                     FirstPresent(client, ["Trust Name", "Entity Name", "Full Name"]),
                     FirstPresent(client, ["Tax ID", "EIN", "SSN"]),
                     FirstPresent(client, ["Trust Date", "Date of Trust"]),
                     Get(client, "State"), Get(client, "Date of Birth"), Get(client, "SSN"),
                     Get(client, "Email"), Get(client, "Phone"), today);
    var addr := Get(client, "Address");
    SecondTrusteeKeysEnd(SplitName(Get(trustee2, "Full Name")), ParseAddress(GetOr(trustee2, "Address", addr)),
                         ParseAddress(addr), Get(trustee2, "Date of Birth"), Get(trustee2, "SSN"),
                         Get(trustee2, "Email"), Get(trustee2, "Phone"), today);
  }

  /** The trust is named by the first of Trust Name, Entity Name and Full Name
      that is present. */
  lemma TrustNamed(client: Record, today: string)
    ensures var f := TrustPrimaryFields(client, today);
      && ("Trust Name" in client ==> f["ASU_NameofTrust"] == client["Trust Name"])
      && ("Trust Name" !in client && "Entity Name" in client ==> f["ASU_NameofTrust"] == client["Entity Name"])
      && ("Trust Name" !in client && "Entity Name" !in client ==> f["ASU_NameofTrust"] == Get(client, "Full Name"))
  {
    var names := ["Trust Name", "Entity Name", "Full Name"];
    TrustBaseValues(SplitName(Get(client, "Full Name")), ParseAddress(Get(client, "Address")),
                    FirstPresent(client, names),
                    FirstPresent(client, ["Tax ID", "EIN", "SSN"]),
                    FirstPresent(client, ["Trust Date", "Date of Trust"]),
                    Get(client, "State"), Get(client, "Date of Birth"), Get(client, "SSN"),
                    Get(client, "Email"), Get(client, "Phone"), today);
    TrustNameOf(client);
  }

  lemma TrustNameOf(client: Record)
    ensures var r := FirstPresent(client, ["Trust Name", "Entity Name", "Full Name"]);
      && ("Trust Name" in client ==> r == client["Trust Name"])
      && ("Trust Name" !in client && "Entity Name" in client ==> r == client["Entity Name"])
      && ("Trust Name" !in client && "Entity Name" !in client ==> r == Get(client, "Full Name"))
  {
    var names := ["Trust Name", "Entity Name", "Full Name"];
    var r := FirstPresent(client, names);
    assert names[0] == "Trust Name" && names[1] == "Entity Name" && names[2] == "Full Name";
    if "Trust Name" !in client && "Entity Name" !in client {
      if "Full Name" in client {
        assert r == client[names[2]];
      } else {
        assert r == "";
      }
    }
  }

  /** The trust is organized in the State entry unless that is empty, then in
      the state of the address. */
  lemma TrustOrganized(client: Record, today: string)
    ensures var f := TrustPrimaryFields(client, today);
      && (Get(client, "State") != "" ==> f["ASU_StateWhereOrganized"] == client["State"])
      && (Get(client, "State") == "" ==> f["ASU_StateWhereOrganized"] == ParseAddress(Get(client, "Address")).state)
  {
    TrustBaseValues(SplitName(Get(client, "Full Name")), ParseAddress(Get(client, "Address")),
                    FirstPresent(client, ["Trust Name", "Entity Name", "Full Name"]),
                    FirstPresent(client, ["Tax ID", "EIN", "SSN"]),
                    FirstPresent(client, ["Trust Date", "Date of Trust"]),
                    Get(client, "State"), Get(client, "Date of Birth"), Get(client, "SSN"),
                    Get(client, "Email"), Get(client, "Phone"), today);
  }

  /** A second trustee leaves every field of the trust as it was. */
  lemma TrustPrimaryKept(client: Record, trustee2: Option<Record>, today: string)
    ensures var f, base := TrustAppFields(client, trustee2, today), TrustPrimaryFields(client, today);
      forall k :: k in base ==> k in f && f[k] == base[k]
  {
    if Truthy(trustee2) {
      TrustKeysApart(client, trustee2.value, today);
    }
  }

  /** The second trustee's fields are written exactly when a second trustee
      is given, and then every one of them as its builder made it. */
  lemma TrustSecondTrustee(client: Record, trustee2: Option<Record>, today: string)
    ensures var f := TrustAppFields(client, trustee2, today);
      && (Truthy(trustee2) ==> var t := TrusteeFields(client, trustee2.value, today);
            forall k :: k in t ==> k in f && f[k] == t[k])
      && (!Truthy(trustee2) ==> f == TrustPrimaryFields(client, today))
      && ("PI_FirstName02" in f <==> Truthy(trustee2))
      && ("CT_Date02" in f <==> Truthy(trustee2))
  {
    assert EndsIn("PI_FirstName02", "2") && EndsIn("CT_Date02", "2");
    TrustBaseKeysEnd(SplitName(Get(client, "Full Name")), ParseAddress(Get(client, "Address")),
                     FirstPresent(client, ["Trust Name", "Entity Name", "Full Name"]),
                     FirstPresent(client, ["Tax ID", "EIN", "SSN"]),
                     FirstPresent(client, ["Trust Date", "Date of Trust"]),
                     Get(client, "State"), Get(client, "Date of Birth"), Get(client, "SSN"),
                     Get(client, "Email"), Get(client, "Phone"), today);
    if Truthy(trustee2) {
      var t2 := trustee2.value;
      var addr := Get(client, "Address");
      SecondTrusteeHas(SplitName(Get(t2, "Full Name")), ParseAddress(GetOr(t2, "Address", addr)),
                       ParseAddress(addr), Get(t2, "Date of Birth"), Get(t2, "SSN"),
                       Get(t2, "Email"), Get(t2, "Phone"), today);
    }
  }

  // ---------------------------------------------------------------------------
  // fill_add_remove_advisor
  // ---------------------------------------------------------------------------

  /** The keyword arguments of fill_add_remove_advisor, "" and no accounts
      by default. */
  datatype AdvisorArgs = AdvisorArgs(
    advisorName: string, advisorGNumber: string, dtcNumber: string,
    pricingCode: string, accountNumbers: seq<string>)

  /** Account key i: "AI_Account", then "AI_Account01" .. "AI_Account14". */
  function AccountKey(i: nat): string {
    if i == 0 then "AI_Account" else "AI_Account" + ZeroPad(i, 2)
  }

  /** acct_keys */
  function AccountKeys(): (keys: seq<string>)
    ensures |keys| == 15 && forall i :: 0 <= i < 15 ==> keys[i] == AccountKey(i)
  {
    seq(15, i requires 0 <= i < 15 => AccountKey(i))
  }

  /** A key that reads "?I?A..": every account key does, no other key of the
      advisor form does. */
  predicate AccountLike(k: string) {
    |k| >= 4 && k[1] == 'I' && k[3] == 'A'
  }

  /** Account key i is "AI_Account" followed, from the second key on, by i
      written with two digits. */
  lemma AccountKeyAt(i: nat)
    requires i < 15
    ensures var k := AccountKey(i);
      && |k| >= 10 && k[..10] == "AI_Account" && AccountLike(k)
      && (i > 0 ==> k[10..] == ZeroPad(i, 2) && |k| == 12)
  {
    var k := AccountKey(i);
    if i > 0 {
      assert |ZeroPad(i, 2)| == 2 by {
        assert Pow10(2) == 100;
        NatToStringLength(i, 2);
      }
      assert k[10..] == ZeroPad(i, 2);
    }
    assert k[..10] == "AI_Account";
    assert k[1] == 'I' && k[3] == 'A' by {
      assert k[1] == k[..10][1] && k[3] == k[..10][3];
    }
  }

  /** Every account key starts with "AI_Account", and no two are equal. */
  lemma AccountKeysDistinct()
    ensures forall i :: 0 <= i < 15 ==> |AccountKeys()[i]| >= 10 && AccountKeys()[i][..10] == "AI_Account"
    ensures forall i :: 0 <= i < 15 ==> AccountLike(AccountKeys()[i])
    ensures forall i, j :: 0 <= i < j < 15 ==> AccountKeys()[i] != AccountKeys()[j]
  {
    var keys := AccountKeys();
    forall i | 0 <= i < 15 ensures |keys[i]| >= 10 && keys[i][..10] == "AI_Account" && AccountLike(keys[i]) {
      AccountKeyAt(i);
    }
    forall i, j | 0 <= i < j < 15 ensures keys[i] != keys[j] {
      AccountKeysApart(i, j);
    }
  }

  lemma AccountKeysApart(i: nat, j: nat)
    requires i < j < 15
    ensures AccountKey(i) != AccountKey(j)
  {
    AccountKeyAt(i);
    AccountKeyAt(j);
    if i > 0 {
      assert ZeroPad(i, 2) != ZeroPad(j, 2) by {
        ZeroPadInjective(i, j, 2);
      }
    } else {
      assert |AccountKey(i)| == 10;
    }
  }

  /** The accounts that fit on the form: at most the first fifteen. */
  function KeptAccounts(accts: seq<string>): (r: seq<string>)
    ensures |r| <= 15 && |r| <= |accts| && r == accts[..|r|]
    ensures |accts| <= 15 ==> r == accts
    ensures |accts| > 15 ==> |r| == 15
  {
    if |accts| <= 15 then accts else accts[..15]
  }

  function AdvisorBase(n: Name, name: string, args: AdvisorArgs, today: string): map<string, string> {
    map[
      "AI_First" := n.first, "AI_MI" := n.mi, "AI_Last" := n.last,
      "DA_AdvisorName" := args.advisorName, "DA_GNumber" := args.advisorGNumber,
      "DA_DTCNumber" := args.dtcNumber, "DA_PricingCode" := args.pricingCode,
      "SD_PrintAccountOwner" := name, "SD_Date" := today]
  }

  /** The fields after `fields[keys[i]] = vals[i]` for each i, in order. */
  function Assigned(fields: map<string, string>, keys: seq<string>, vals: seq<string>): map<string, string>
    requires |vals| <= |keys|
  {
    if vals == [] then fields
    else Assigned(fields, keys, vals[..|vals| - 1])[keys[|vals| - 1] := vals[|vals| - 1]]
  }

  lemma AssignedSnoc(fields: map<string, string>, keys: seq<string>, vals: seq<string>, v: string)
    requires |vals| < |keys|
    ensures Assigned(fields, keys, vals + [v]) == Assigned(fields, keys, vals)[keys[|vals|] := v]
  {
    assert (vals + [v])[..|vals|] == vals;
  }

  /** With distinct keys, value i sits under key i, and every other key
      keeps its value. */
  lemma {:induction false} AssignedValues(fields: map<string, string>, keys: seq<string>, vals: seq<string>)
    requires |vals| <= |keys|
    requires forall i, j :: 0 <= i < j < |keys| ==> keys[i] != keys[j]
    ensures var r := Assigned(fields, keys, vals);
      && (forall i :: 0 <= i < |vals| ==> keys[i] in r && r[keys[i]] == vals[i])
      && (forall k :: k in fields ==> k in r)
      && (forall k :: k in fields && (forall i :: 0 <= i < |vals| ==> k != keys[i]) ==> r[k] == fields[k])
  {
    if vals != [] {
      var init := vals[..|vals| - 1];
      AssignedValues(fields, keys, init);
      assert forall i :: 0 <= i < |init| ==> init[i] == vals[i];
    }
  }

  /** The fields of fill_add_remove_advisor, with the accounts that fit
      written to their keys in order. */
  method AdvisorFields(client: Record, args: AdvisorArgs, today: string) returns (fields: map<string, string>)
    ensures fields == Assigned(AdvisorBase(SplitName(Get(client, "Full Name")), Get(client, "Full Name"), args, today),
                               AccountKeys(), KeptAccounts(args.accountNumbers))
  {
    var name := Get(client, "Full Name");
    var acctKeys := AccountKeys();
    var accts := args.accountNumbers;
    if |accts| > |acctKeys| {
      accts := accts[..|acctKeys|];
    }
    fields := WriteAccounts(AdvisorBase(SplitName(name), name, args, today), acctKeys, accts);
  }

  /** The loop of fill_add_remove_advisor: account i is written under key i. */
  method WriteAccounts(base: map<string, string>, keys: seq<string>, accts: seq<string>)
    returns (fields: map<string, string>)
    requires |accts| <= |keys|
    ensures fields == Assigned(base, keys, accts)
  {
    fields := base;
    for i := 0 to |accts|
      invariant fields == Assigned(base, keys, accts[..i])
    {
      assert accts[..i + 1] == accts[..i] + [accts[i]];
      AssignedSnoc(base, keys, accts[..i], accts[i]);
      fields := fields[keys[i] := accts[i]];
    }
    assert accts[..|accts|] == accts;
  }

  /** The advisor form carries each of the first fifteen accounts under its
      own key, keeps the advisor's entries, and is signed with the client's
      full name and today's date. */
  lemma AdvisorAccounts(n: Name, name: string, args: AdvisorArgs, today: string)
    ensures var kept := KeptAccounts(args.accountNumbers);
      var f := Assigned(AdvisorBase(n, name, args, today), AccountKeys(), kept);
      && (forall i :: 0 <= i < |kept| ==> AccountKeys()[i] in f && f[AccountKeys()[i]] == args.accountNumbers[i])
      && "SD_PrintAccountOwner" in f && f["SD_PrintAccountOwner"] == name
      && "AI_First" in f && f["AI_First"] == n.first
      && "DA_AdvisorName" in f && f["DA_AdvisorName"] == args.advisorName
      && "SD_Date" in f && f["SD_Date"] == today
      && (forall k :: k in AdvisorBase(n, name, args, today) ==> k in f && f[k] == AdvisorBase(n, name, args, today)[k])
  {
    var kept := KeptAccounts(args.accountNumbers);
    var base := AdvisorBase(n, name, args, today);
    AccountKeysDistinct();
    AdvisorBaseKeys(n, name, args, today);
    AssignedValues(base, AccountKeys(), kept);
  }

  lemma AdvisorBaseKeys(n: Name, name: string, args: AdvisorArgs, today: string)
    ensures var b := AdvisorBase(n, name, args, today);
      && (forall k :: k in b ==> !AccountLike(k))
      && "SD_PrintAccountOwner" in b && b["SD_PrintAccountOwner"] == name
      && "AI_First" in b && b["AI_First"] == n.first
      && "DA_AdvisorName" in b && b["DA_AdvisorName"] == args.advisorName
      && "SD_Date" in b && b["SD_Date"] == today
  {
  }

  // ---------------------------------------------------------------------------
  // fill_journal_request
  // ---------------------------------------------------------------------------

  /** The keyword arguments of fill_journal_request. */
  datatype JournalArgs = JournalArgs(receivingAccount: string, receivingOwner: string, firm: string, gnumber: string)

  /** Their defaults: no receiving account or owner, the firm "IWS". */
  const DefaultJournalArgs := JournalArgs("", "", "IWS", "")

  function JournalFields(client: Record, args: JournalArgs, today: string): map<string, string> {
    var name := Get(client, "Full Name");
    var n := SplitName(name);
    map[
      "AO_First" := n.first, "AO_MI" := n.mi, "AO_Last" := n.last,
      "AO_SocialSecurityNumber" := FirstPresent(client, ["SSN", "Social Security Number"]),
      "JR_FirmName" := args.firm, "JR_GNumber" := args.gnumber,
      "RAI_OwnerName" := Or(args.receivingOwner, name),
      "RAI_Account" := args.receivingAccount,
      "SaD_PrintAccountOwnerName" := name, "SD_Date" := today]
  }

  /** The receiving owner is the client unless another owner is named; by
      default the firm is IWS. */
  lemma JournalOwner(client: Record, args: JournalArgs, today: string)
    ensures var f := JournalFields(client, args, today);
      && f["RAI_OwnerName"] == (if args.receivingOwner != "" then args.receivingOwner else Get(client, "Full Name"))
      && f["SaD_PrintAccountOwnerName"] == Get(client, "Full Name")
      && JournalFields(client, DefaultJournalArgs, today)["JR_FirmName"] == "IWS"
      && JournalFields(client, DefaultJournalArgs, today)["RAI_OwnerName"] == Get(client, "Full Name")
  {
  }

  // ---------------------------------------------------------------------------
  // _fill: writing the field map into a form
  // ---------------------------------------------------------------------------

  datatype Widget = Widget(name: string, value: string)
  type Page = seq<Widget>
  type Document = seq<Page>

  /** A widget after filling: it takes the map's value for its name when that
      value is non-empty, and keeps its own otherwise. */
  function Written(w: Widget, fields: map<string, string>): (r: Widget)
    ensures r.name == w.name
    ensures w.name in fields && fields[w.name] != "" ==> r.value == fields[w.name]
    ensures !(w.name in fields && fields[w.name] != "") ==> r == w
  {
    if w.name in fields && fields[w.name] != "" then w.(value := fields[w.name]) else w
  }

  function FilledPage(p: Page, fields: map<string, string>): (r: Page)
    ensures |r| == |p| && forall j :: 0 <= j < |p| ==> r[j] == Written(p[j], fields)
  {
    seq(|p|, j requires 0 <= j < |p| => Written(p[j], fields))
  }

  function FilledDoc(d: Document, fields: map<string, string>): (r: Document)
    ensures |r| == |d| && forall i :: 0 <= i < |d| ==> r[i] == FilledPage(d[i], fields)
  {
    seq(|d|, i requires 0 <= i < |d| => FilledPage(d[i], fields))
  }

  /** The outcome of _fill on a set of templates keyed by file name. */
  function FillResult(templates: map<string, Document>, filename: string, fields: map<string, string>): Result<Document> {
    if filename in templates then Ok(FilledDoc(templates[filename], fields))
    else Err(FileNotFoundError(filename))
  }

  /** _fill: open the template, then write widget by widget, page by page. */
  method Fill(templates: map<string, Document>, filename: string, fields: map<string, string>)
    returns (r: Result<Document>)
    ensures r == FillResult(templates, filename, fields)
  {
    if filename !in templates {
      return Err(FileNotFoundError(filename));
    }
    var doc := templates[filename];
    var pages: Document := [];
    for i := 0 to |doc|
      invariant pages == FilledDoc(doc[..i], fields)
    {
      var page := doc[i];
      var widgets := new Widget[|page|](j requires 0 <= j < |page| => page[j]);
      for j := 0 to widgets.Length
        invariant widgets[..] == FilledPage(page[..j], fields) + page[j..]
      {
        var w := widgets[j];
        if w.name in fields && fields[w.name] != "" {
          widgets[j] := w.(value := fields[w.name]);
        }
      }
      assert page[..|page|] == page && page[|page|..] == [];
      assert widgets[..] == FilledPage(page, fields);
      assert doc[..i + 1] == doc[..i] + [page];
      FilledDocSnoc(doc[..i], page, fields);
      pages := pages + [widgets[..]];
    }
    assert doc[..|doc|] == doc;
    r := Ok(pages);
  }

  lemma FilledDocSnoc(d: Document, p: Page, fields: map<string, string>)
    ensures FilledDoc(d + [p], fields) == FilledDoc(d, fields) + [FilledPage(p, fields)]
  {
    var l, r := FilledDoc(d + [p], fields), FilledDoc(d, fields) + [FilledPage(p, fields)];
    assert |l| == |r|;
    forall i | 0 <= i < |l| ensures l[i] == r[i] {
      if i < |d| {
        assert (d + [p])[i] == d[i];
      }
    }
  }

  /** Filling keeps the layout and every widget name. */
  lemma FilledDocShape(d: Document, fields: map<string, string>)
    ensures var r := FilledDoc(d, fields);
      |r| == |d| && forall i, j :: 0 <= i < |d| && 0 <= j < |d[i]| ==> |r[i]| == |d[i]| && r[i][j].name == d[i][j].name
  {
  }

  /** Filling twice with the same map is filling once. */
  lemma FillIdempotent(d: Document, fields: map<string, string>)
    ensures FilledDoc(FilledDoc(d, fields), fields) == FilledDoc(d, fields)
  {
    forall i | 0 <= i < |d| ensures FilledPage(FilledPage(d[i], fields), fields) == FilledPage(d[i], fields) { }
  }

  /** A map holding only empty values leaves the document as it is. */
  lemma FillWithEmptyValues(d: Document, fields: map<string, string>)
    requires forall k :: k in fields ==> fields[k] == ""
    ensures FilledDoc(d, fields) == d
  {
    forall i | 0 <= i < |d| ensures FilledPage(d[i], fields) == d[i] { }
  }

  /** Filling with f and then with g, whose values are all non-empty, is
      filling once with f updated by g. */
  lemma FillTwice(d: Document, f: map<string, string>, g: map<string, string>)
    requires forall k :: k in g ==> g[k] != ""
    ensures FilledDoc(FilledDoc(d, f), g) == FilledDoc(d, f + g)
  {
    forall i | 0 <= i < |d| ensures FilledPage(FilledPage(d[i], f), g) == FilledPage(d[i], f + g) { }
  }

  // ---------------------------------------------------------------------------
  // fill_form
  // ---------------------------------------------------------------------------

  const PersonalPdf := "IWSPersonalApp_Dec2024.pdf"
  const TrustPdf := "IWSTrustApp_Dec2024.pdf"
  const AdvisorPdf := "Add_RemoveAdvisor_Brokerage_Jan2026.pdf"
  const JournalPdf := "JournalRequest_May2021_rev.pdf"

  /** The form keys fill_form accepts. */
  const FormKeys := ["IWSPersonalApp", "IWSTrustApp", "AddRemoveAdvisor", "JournalRequest"]

  /** The keyword arguments handed on to the advisor or journal filler. */
  datatype FormArgs = FormArgs(advisor: AdvisorArgs, journal: JournalArgs)

  /** Backslashes and the quote character escaped, as repr does. */
  function Escape(s: string, quote: char): (r: string)
    ensures |r| >= |s|
  {
    if s == [] then ""
    else (if s[0] == '\\' || s[0] == quote then ['\\', s[0]] else [s[0]]) + Escape(s[1..], quote)
  }

  /** Text without a backslash or the quote comes back unchanged. */
  lemma {:induction false} EscapeVerbatim(s: string, quote: char)
    requires forall i :: 0 <= i < |s| ==> s[i] != '\\' && s[i] != quote
    ensures Escape(s, quote) == s
    decreases |s|
  {
    if s != [] {
      EscapeVerbatim(s[1..], quote);
      assert [s[0]] + s[1..] == s;
    }
  }

  /** Escaping works character by character: it distributes over concatenation. */
  lemma {:induction false} EscapeAppend(a: string, b: string, quote: char)
    ensures Escape(a + b, quote) == Escape(a, quote) + Escape(b, quote)
    decreases |a|
  {
    if a != [] {
      var c, t := a[0], a[1..];
      assert a == [c] + t;
      assert a + b == [c] + (t + b);
      EscapeCons(c, t + b, quote);
      EscapeCons(c, t, quote);
      EscapeAppend(t, b, quote);
      var h := if c == '\\' || c == quote then ['\\', c] else [c];
      assert h + (Escape(t, quote) + Escape(b, quote)) == (h + Escape(t, quote)) + Escape(b, quote);
    } else {
      assert a + b == b;
    }
  }

  /** A character in front is escaped on its own. */
  lemma EscapeCons(c: char, s: string, quote: char)
    ensures Escape([c] + s, quote) == (if c == '\\' || c == quote then ['\\', c] else [c]) + Escape(s, quote)
  {
    assert ([c] + s)[1..] == s;
  }

  /** Reading an escaped text back: a backslash takes the next character literally. */
  function Unescape(s: string): string
    decreases |s|
  {
    if s == [] then ""
    else if s[0] == '\\' && |s| >= 2 then [s[1]] + Unescape(s[2..])
    else [s[0]] + Unescape(s[1..])
  }

  /** Unescaping gives the original text back, so different keys give
      different error messages. */
  lemma {:induction false} UnescapeEscape(s: string, quote: char)
    ensures Unescape(Escape(s, quote)) == s
    decreases |s|
  {
    if s != [] {
      var e := Escape(s, quote);
      var rest := Escape(s[1..], quote);
      UnescapeEscape(s[1..], quote);
      if s[0] == '\\' || s[0] == quote {
        assert e == ['\\', s[0]] + rest;
        assert e[2..] == rest;
      } else {
        assert e == [s[0]] + rest;
        assert e[1..] == rest;
      }
    }
  }

  /** repr of a string: single quotes, or double quotes when the string holds
      a single quote and no double quote. */
  function Repr(s: string): (r: string)
    ensures |r| >= |s| + 2
    ensures r[0] == r[|r| - 1] && r[0] == (if '\'' in s && '"' !in s then '"' else '\'')
  {
    if '\'' in s && '"' !in s then "\"" + Escape(s, '"') + "\""
    else "'" + Escape(s, '\'') + "'"
  }

  /** The text between the quotes of repr(s) reads back as s. */
  lemma ReprReadBack(s: string)
    ensures var r := Repr(s); Unescape(r[1..|r| - 1]) == s
  {
    var r := Repr(s);
    if '\'' in s && '"' !in s {
      assert r[1..|r| - 1] == Escape(s, '"');
      UnescapeEscape(s, '"');
    } else {
      assert r[1..|r| - 1] == Escape(s, '\'');
      UnescapeEscape(s, '\'');
    }
  }

  /** The document fill_form returns, or the error it raises: the filler
      chosen by the form key, or a ValueError naming the key. */
  function FormResult(templates: map<string, Document>, key: string, client: Record,
                      coClient: Option<Record>, kwargs: FormArgs, today: string): Result<Document>
  {
    if key == "IWSPersonalApp" then FillResult(templates, PersonalPdf, PersonalAppFields(client, coClient, today))
    else if key == "IWSTrustApp" then FillResult(templates, TrustPdf, TrustAppFields(client, coClient, today))
    else if key == "AddRemoveAdvisor" then
      FillResult(templates, AdvisorPdf,
        Assigned(AdvisorBase(SplitName(Get(client, "Full Name")), Get(client, "Full Name"), kwargs.advisor, today),
                 AccountKeys(), KeptAccounts(kwargs.advisor.accountNumbers)))
    else if key == "JournalRequest" then FillResult(templates, JournalPdf, JournalFields(client, kwargs.journal, today))
    else Err(ValueError("Unknown form key: " + Repr(key)))
  }

  /** fill_form: the filler chosen by the form key, or a ValueError naming
      the key. */
  method FillForm(templates: map<string, Document>, key: string, client: Record,
                  coClient: Option<Record>, kwargs: FormArgs, today: string)
    returns (r: Result<Document>)
    ensures r == FormResult(templates, key, client, coClient, kwargs, today)
    ensures key !in FormKeys ==> r == Err(ValueError("Unknown form key: " + Repr(key)))
    ensures key == "IWSPersonalApp" ==> r == FillResult(templates, PersonalPdf, PersonalAppFields(client, coClient, today))
    ensures key == "IWSTrustApp" ==> r == FillResult(templates, TrustPdf, TrustAppFields(client, coClient, today))
    ensures key == "AddRemoveAdvisor" ==>
      r == FillResult(templates, AdvisorPdf,
             Assigned(AdvisorBase(SplitName(Get(client, "Full Name")), Get(client, "Full Name"), kwargs.advisor, today),
                      AccountKeys(), KeptAccounts(kwargs.advisor.accountNumbers)))
    ensures key == "JournalRequest" ==> r == FillResult(templates, JournalPdf, JournalFields(client, kwargs.journal, today))
  {
    if key == "IWSPersonalApp" {
      r := Fill(templates, PersonalPdf, PersonalAppFields(client, coClient, today));
    } else if key == "IWSTrustApp" {
      r := Fill(templates, TrustPdf, TrustAppFields(client, coClient, today));
    } else if key == "AddRemoveAdvisor" {
      var fields := AdvisorFields(client, kwargs.advisor, today);
      r := Fill(templates, AdvisorPdf, fields);
    } else if key == "JournalRequest" {
      r := Fill(templates, JournalPdf, JournalFields(client, kwargs.journal, today));
    } else {
      r := Err(ValueError("Unknown form key: " + Repr(key)));
    }
  }

  /** fill_form raises ValueError exactly for the keys it does not know, and
      the message quotes the key so that it can be read back. With a template
      for each of the four forms, it succeeds exactly for the keys it knows. */
  lemma FillFormErrors(templates: map<string, Document>, key: string,
                       client: Record, coClient: Option<Record>, kwargs: FormArgs, today: string)
    ensures var r := FormResult(templates, key, client, coClient, kwargs, today);
      && ((r.Err? && r.error.ValueError?) <==> key !in FormKeys)
      && (key !in FormKeys ==> r.error.message == "Unknown form key: " + Repr(key))
      && ({PersonalPdf, TrustPdf, AdvisorPdf, JournalPdf} <= templates.Keys ==> (r.Ok? <==> key in FormKeys))
  {
    var r := FormResult(templates, key, client, coClient, kwargs, today);
    if key in FormKeys {
      var file := if key == "IWSPersonalApp" then PersonalPdf else if key == "IWSTrustApp" then TrustPdf
                  else if key == "AddRemoveAdvisor" then AdvisorPdf else JournalPdf;
      var fields :| r == FillResult(templates, file, fields);
      FillOutcome(templates, file, fields);
    }
  }

  lemma FillOutcome(templates: map<string, Document>, filename: string, fields: map<string, string>)
    ensures var r := FillResult(templates, filename, fields);
      (r.Ok? <==> filename in templates) && (r.Err? ==> r.error.FileNotFoundError?)
  {
  }
}

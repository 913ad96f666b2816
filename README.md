# wealth-agent intake, CRM and form-filling core, in Dafny

This project models the deterministic core of the wealth-agent advisor
assistant and proves properties of that model. The core has three parts.

- **Intake and household (app.py).**
  - `_read_intake_form` reads an intake sheet, given as a table of cell
    strings. The sheet is either a key-value sheet ("Field"/"Value" header)
    or a wide sheet with one column per party. The wide reader copies
    party 0's value into a party's blank cell, drops parties that stay
    empty, and tags each survivor with its column name.
  - `_normalize_fields` is the ordered if/elif chain that turns each raw
    label into a canonical key. It overwrites, uses `setdefault` for the
    objective and advisor labels, accumulates `Notes`, and passes unknown
    labels through.
  - The helpers: `_parse_date`; `_full_name`; the household merge done
    inline on the registration page (primary, then spouse, then numbered
    children); the beneficiary notes of `_do_register`; the registry list
    update and lookup; the de-duplicated client lists; and the file-name
    slug.
- **The CRM stub (wealth_agent.py).**
  - `MockSalesforce` is a class with a sequence counter and a record map.
    `create_contact` issues the ids "003" + 13 zero-padded digits.
  - `create_salesforce_contact` renames the canonical fields to CRM field
    names.
  - `find_client_file` matches a name against a list of file stems: the
    exact slug first, then the first stem containing every word of the
    name.
- **The PDF form fillers (pdf_filler.py).**
  - The string helpers `_split_name` and `_parse_address`.
  - The four field-map builders: personal application, trust application,
    add/remove advisor, and journal request.
  - The `fill_form` dispatcher.
  - The write rule of `_fill`, over a document of pages of named widgets.

## Layout

| file | module | models |
|---|---|---|
| Results.dfy | `Results` | `None`, and the exceptions raised (`IndexError`, `ValueError`, `FileNotFoundError`), as values |
| Strings.dfy | `Strings` | `str.strip`, `str.split` with and without a separator, `str.join`, `str.lower`, `in` on strings, `str.replace`, all over ASCII |
| Decimal.dfy | `Decimal` | `str(n)` for naturals, `zfill` and the `%0Nd` format |
| Intake.dfy | `Intake` | `_parse_date`, `_normalize_fields` (the rule chain `Rules`, its specification `Normalize`, and the loop `NormalizeFields`) |
| IntakeForm.dfy | `IntakeForm` | `_read_intake_form` (the specification `ReadIntake` and the method `ReadIntakeForm` with its loops) |
| Household.dfy | `Household` | `_full_name`, the household merge, the beneficiary notes, `_do_register` |
| Crm.dfy | `Crm` | `MockSalesforce` (a class), `create_salesforce_contact`, the slug, `find_client_file` |
| Registry.dfy | `Registry` | `_save_to_registry`'s list update, `_registry_names`, `_registry_entry`, `_all_known_clients`, `_registered_without_data` |
| Forms.dfy | `Forms` | `_split_name`, `_parse_address`, the four `fill_*` builders, `_fill`'s write rule, `fill_form` |

Source code that loops or updates state is modelled as a method proved
against a specification function:

| method | loop or update it models | specification |
|---|---|---|
| `NormalizeFields` | the `for` loop that fills `out` | `Normalize` |
| `ReadIntakeForm` | the reader's nested loops that fill `raws`, then the loop that builds `result` | `ReadIntake` |
| `BuildBeneficiaryNotes` | the loop that grows `bene_parts`, including its `while` | `BeneficiaryNotes` |
| `ComposeHousehold` | the merge, which mutates `primary` | `Household` |
| `MockSalesforce.CreateContact` | the update of `_seq` and `_records` | `ContactId` and `NewRecord` |
| `FindClientFile` | the search loops with early returns | its own `ensures` |
| `AllKnownClients` | the `seen`/`names` loop | `Sort(Dedup(...))` |
| `WriteAccounts` | the account-number loop | `Assigned` |
| `Fill` | the widget loop | `FilledDoc` |

The lemmas then state what the source promises about those functions.

### Edge cases of the code

- A sheet whose first row has one cell is read as a wide sheet with no
  parties.
- An empty sheet raises `IndexError` when row 0 is read (`ReadIntake`
  returns `Err(IndexError)`).
- A missing template raises `FileNotFoundError` (`Forms.Fill`).
- In a wide sheet, a blank cell copies party 0's value for that label as
  party 0 holds it *after* the current row. This is because the cells of
  a row are visited left to right, and party 0's cell is visited first.
- The normalizer and `_split_name` split names differently, and both are
  modelled as written. For four tokens "a b c d", the normalizer gives
  First "a" and Last "d" with no middle initial. `_split_name` gives
  ("a", the upper-cased "b"[0], "c d") (`Forms.SplittersDiffer`).

## Model

| member | source | states |
|---|---|---|
| Strings.Lower | app.py:414 | lower-casing keeps the length and maps each character (ASCII upper case to lower case) |
| Strings.Strip | app.py:413 | the result is no longer than the input and has no whitespace at either end |
| Strings.StripRemovesSpaces | app.py:413 | strip removes only whitespace, and only from the two ends: the result is a contiguous slice of the input |
| Strings.StripIdempotent | app.py:415 | stripping twice is stripping once |
| Strings.Split | app.py:417 | every piece of `split()` is a non-empty run without whitespace |
| Strings.SplitOfToken | app.py:417 | a single run without whitespace splits into itself |
| Strings.SplitSpaces | app.py:417 | any non-empty run of whitespace between a and b separates their pieces: `split(a + w + b)` is `split(a) + split(b)`; with SplitOfToken and SplitEmpty this fixes `split()` as the maximal non-whitespace runs, in order |
| Strings.SplitEmpty | app.py:417-418 | `split()` gives no pieces exactly when the string is all whitespace |
| Strings.SplitJoin | app.py:527 | splitting tokens joined by single spaces gives the tokens back |
| Strings.StripSpacedConcat | app.py:466 | stripping `existing + "  " + v`, for stripped parts with existing non-empty, gives `existing` when v is empty and the concatenation otherwise |
| Strings.SplitOn | pdf_filler.py:44 | `split(",")` has at least one part and no part contains the separator |
| Strings.JoinSplitOn | pdf_filler.py:44 | joining the parts of `split(",")` with "," gives the string back |
| Strings.SplitOnJoin | pdf_filler.py:44 | splitting comma-joined comma-free parts gives the parts back |
| Decimal.NatToString | app.py:891 | `str(n)` is a non-empty digit string with no leading zero |
| Decimal.ValueOfNatToString | app.py:891 | reading `str(n)` back gives n |
| Decimal.NatToStringInjective | app.py:891 | different numbers have different renderings |
| Decimal.ZeroPad | pdf_filler.py:243 | zero padding is a digit string of width max(width, digits) ending in `str(n)` |
| Decimal.ZeroPadValue | wealth_agent.py:56 | reading a zero-padded rendering back gives the number |
| Decimal.ZeroPadInjective | pdf_filler.py:243 | different numbers have different zero-padded renderings |
| Intake.RawRecord.Put | app.py:512 | a dict assignment stores the value; a new label goes last and an existing label keeps its place |
| Intake.ParseDateSpec | app.py:405-407 | a trimmed value containing a space gives its first whitespace-free run, a prefix ended by whitespace; any other trimmed value is returned unchanged |
| Intake.ParseDateIdempotent | app.py:405-407 | parsing a parsed date changes nothing |
| Intake.ParseDate | app.py:404-407 | the parsed date holds no space and is a prefix of the trimmed value |
| Intake.ParseDateParsed | app.py:404-407 | a parsed date is trimmed and holds no space, so parsing it again changes nothing |
| Intake.AnyPassesSome | app.py:451-453 | an `or`/`in`/`any(...)` condition holds exactly when one of its tests passes |
| Intake.FirstRuleSelected | app.py:416-472 | the rule chosen is the pass-through default or that of a branch whose condition holds |
| Intake.SelectsMentions | app.py:416-472 | a branch that selects a rule is a branch of the chain |
| Intake.Skip | app.py:416-472 | an `elif` whose condition fails hands the label to the next branch |
| Intake.ClassifyFullName | app.py:416 | the label "full name" selects the full-name split |
| Intake.ClassifyDob | app.py:429 | "dob" selects the date-of-birth rule |
| Intake.ClassifyDateOfBirth | app.py:429 | "date of birth" selects the date-of-birth rule |
| Intake.ClassifyBirthdate | app.py:429 | "birthdate" selects the date-of-birth rule |
| Intake.ClassifyBirthSpaceDate | app.py:429 | "birth date" selects the date-of-birth rule |
| Intake.ContactMentions | app.py:431-442 | the address-to-email branches neither parse a birth date nor assign Notes |
| Intake.FinanceMentions | app.py:443-452 | the income-to-occupation branches neither parse a birth date nor assign Notes |
| Intake.ProfileMentions | app.py:453-470 | the objective-to-fee branches neither parse a birth date nor assign Notes |
| Intake.BirthDateNotLater | app.py:431-472 | no branch after the date-of-birth branch parses a birth date |
| Intake.BirthDateTests | app.py:429 | only the four listed spellings pass the date-of-birth condition |
| Intake.BirthDateRule | app.py:429-430 | a trimmed, lower-cased label selects the date-of-birth rule if and only if it is "dob", "date of birth", "birthdate" or "birth date" |
| Intake.ProfileHeadNotes | app.py:453-459 | "notes" fails the objective, risk and horizon conditions |
| Intake.ProfileRulesNotes | app.py:453-466 | among the profile branches, "notes" reaches the note branch |
| Intake.FinanceRulesNotes | app.py:443-452 | "notes" fails every finance condition |
| Intake.ContactRulesNotes | app.py:431-442 | "notes" fails every contact condition |
| Intake.PersonRulesNotes | app.py:416-430 | "notes" fails every name and birth-date condition |
| Intake.ClassifyNotes | app.py:464 | the label "notes" selects the note rule |
| Intake.SameLabelSameEffect | app.py:413-414 | two labels equal after trimming and lower-casing, with a rule, have the same effect on the record |
| Intake.BirthDateLabel | app.py:429-430 | a date-of-birth label stores `_parse_date` of its value under "Date of Birth" |
| Intake.FullNameLabel | app.py:416-424 | a name label with at least 2 tokens sets First = first token and Last = last token; Middle Initial = token 2 only with exactly 3 tokens; with 0 or 1 tokens First = the trimmed value; no other key changes |
| Intake.ObjectiveLabel | app.py:453-455 | an objective label only defaults "Investment Goal" and "Risk Tolerance" |
| Intake.AdvisorLabel | app.py:462-463 | an advisor label only defaults "Referral Source" |
| Intake.PassthroughLabel | app.py:471-472 | a label with no rule is stored under its trimmed text with its trimmed value |
| Intake.NormalizeSnoc | app.py:412 | normalizing one more item applies that item's step last |
| Intake.Normalize | app.py:410-473 | the specification of `_normalize_fields`: each (label, value) pair, in insertion order, applies the rule its trimmed, lower-cased label selects; its properties are the lemmas in the rows around it |
| Intake.RiskTolerancePrecedence | app.py:453-457 | an objective label keeps an earlier Risk Tolerance; a risk-tolerance label overwrites it |
| Intake.ReferralSourcePrecedence | app.py:460-463 | an advisor label keeps an earlier Referral Source; a referral label overwrites it |
| Intake.ObjectiveThenRisk | app.py:453-457 | objective then risk: the goal is defaulted, and the risk label's value wins |
| Intake.RiskThenObjective | app.py:453-457 | risk then objective: the same record, because the objective only defaults Risk Tolerance |
| Intake.ObjectiveAndRiskInEitherOrder | app.py:453-457 | the two orders give the same record, with Risk Tolerance from the risk label |
| Intake.NoteValues | app.py:464-466 | the collected note values are non-empty and stripped |
| Intake.ApplyKeepsNotes | app.py:416-472 | every rule other than the note rule leaves "Notes" as it was |
| Intake.NotesLabel | app.py:464 | a label reading "Notes" is note-like |
| Intake.AssignNeverNotes | app.py:416-472 | no label is assigned to "Notes" directly |
| Intake.NotesNeverAssigned | app.py:416-472 | no branch of the chain assigns "Notes" |
| Intake.NotesOnlyFromNoteLabels | app.py:416-472 | only a note-like label changes "Notes" |
| Intake.ApplyNote | app.py:464-466 | the note rule appends a non-empty value after two spaces and leaves the notes unchanged for an empty value |
| Intake.NotesAccumulate | app.py:464-466 | "Notes" is present if and only if some label is note-like, and then it is the non-empty note values joined by two spaces, in order |
| Intake.NoteValuesHaveLabels | app.py:464 | note values come only from note-like labels |
| Intake.NormalizeOne | app.py:413-472 | one iteration of the loop is one step of the specification |
| Intake.NormalizePrefixSnoc | app.py:412 | the loop's invariant advances by one item |
| Intake.NormalizeFields | app.py:410-473 | `_normalize_fields` returns `Normalize` of the raw record's items, in insertion order |
| Intake.CanonicalRule | app.py:413-472 | a trimmed label whose lower-cased form selects a rule selects it as written |
| Intake.MiddleInitialKey | app.py:416-472 | "Middle Initial", which the name split writes, matches no branch and passes through unchanged |
| Intake.RulesTargets | app.py:416-472 | the assignment branches write exactly the 18 canonical keys (First Name, Last Name, Address, … , WAS, Fee) |
| Intake.AssignedTarget | app.py:416-472 | whatever label selects an assignment, its target is one of those keys |
| Intake.AssignTargetRule | app.py:416-472 | each canonical key is trimmed and, read as a label, selects the assignment to itself |
| Intake.StepReadsBack | app.py:413-472 | one step keeps the output reading back: keys and values trimmed, every key selecting its own branch again (or passing through), a Date of Birth without a space, and a Risk Tolerance beside every Investment Goal |
| Intake.NormalizeReadsBack | app.py:410-473 | every record `_normalize_fields` returns reads back in that sense |
| Intake.ReadBackStep | app.py:412-472 | feeding one more (key, value) pair of a read-back record rebuilds that entry, and only "Investment Goal" brings its "Risk Tolerance" along |
| Intake.ReadBackAll | app.py:412-472 | feeding all pairs of a read-back record, in any insertion order, rebuilds every entry |
| Intake.ReadBackDone | app.py:410-473 | once every key is rebuilt, the result is the record itself |
| Intake.NormalizeIdempotent | app.py:410-473 | normalizing the normalizer's own output, listed in any order, gives the same record back |
| IntakeForm.DetectLayout | app.py:480-498 | key-value if and only if row 0 reads "field", "value" after trimming and lower-casing; a header row if and only if it is not key-value and the first cell is blank, "nan" or "none" |
| IntakeForm.PartyLabels | app.py:493-498 | one party name per column after the first |
| IntakeForm.KeyValueRaw | app.py:485-490 | the key-value rows give a well-formed insertion-ordered dict |
| IntakeForm.KeyValueLastWins | app.py:486-490 | a label is present if and only if some non-skipped row names it, and its value is that of the last such row |
| IntakeForm.RowParty | app.py:507-514 | one row keeps each party's record well formed |
| IntakeForm.ApplyRow | app.py:507-514 | one row keeps the number of parties and their well-formedness |
| IntakeForm.WideRaws | app.py:503-514 | the data rows give exactly n well-formed party records |
| IntakeForm.FirstGivenIffLastGiven | app.py:510-512 | a party has a first own value for a label if and only if it has a last one |
| IntakeForm.WidePartyValues | app.py:503-514 | party i holds a label if and only if it has its own value for it (the last one given) or, failing that, party 0's value is copied; the value is that one |
| IntakeForm.WideRawsStep | app.py:503 | the rows are processed in order, the last one last |
| IntakeForm.RowPartyValue | app.py:510-514 | a non-blank cell sets the label; a blank cell of party i>0 copies party 0's value only when the label is absent from party i and present in party 0; otherwise nothing changes |
| IntakeForm.WideValuesNotBlank | app.py:510-514 | no party ever holds a blank, "nan" or "none" value |
| IntakeForm.GivenNotBlank | app.py:510-512 | a party's own values are never blank |
| IntakeForm.NonEmpty | app.py:517-518 | the non-empty parties' indices, strictly increasing, and all of them |
| IntakeForm.Tagged | app.py:519-520 | a party's record carries its column name under `__client_label__` |
| IntakeForm.Given | app.py:517-518 | the kept parties are well formed |
| IntakeForm.GivenAreNonEmpty | app.py:516-521 | the kept parties are exactly the non-empty ones, in column order, each with its own column name |
| IntakeForm.GivenSnoc | app.py:517-521 | one more column adds its party exactly when that party is non-empty |
| IntakeForm.PartiesSnoc | app.py:517-521 | one more column appends its tagged record exactly when its party is non-empty |
| IntakeForm.PartiesTaken | app.py:518-521 | a non-empty party's tagged record is appended |
| IntakeForm.PartiesSkipped | app.py:518 | an empty party is dropped |
| IntakeForm.PartiesUpToAll | app.py:516-522 | all columns taken in give the reader's result |
| IntakeForm.PartiesAreNonEmpty | app.py:516-522 | the result has one record per non-empty party, in column order, each tagged with its column name |
| IntakeForm.PartiesLabels | app.py:516-522 | at most one record per column, each tagged with one of the column names |
| IntakeForm.KeyValueOneRecord | app.py:484-491 | a key-value sheet gives exactly one record |
| IntakeForm.WideRecordLabels | app.py:492-522 | a wide sheet gives at most one record per party column, each tagged with a name from the party labels |
| IntakeForm.WideIntake | app.py:492-522 | on a wide sheet the reader returns the parties of the data rows (row 0 is data when there is no header) |
| IntakeForm.ReadKeyValue | app.py:485-490 | the key-value loop computes `KeyValueRaw` |
| IntakeForm.RowPartyCell | app.py:510-514 | the cell rule for one party, given party 0 as it is after the row |
| IntakeForm.RowPrefix | app.py:507-514 | a row part-way through keeps the number of parties |
| IntakeForm.RowPrefixStep | app.py:507-514 | visiting cell i updates party i only, and party 0 is already updated when a later cell is visited |
| IntakeForm.ReadWideRow | app.py:507-514 | the cell loop of one row computes `ApplyRow` |
| IntakeForm.ReadWideRows | app.py:503-514 | the row loop computes `WideRaws` |
| IntakeForm.TagParty | app.py:519-520 | normalizing and tagging one party computes `Tagged` |
| IntakeForm.CollectParties | app.py:516-522 | the result loop computes `Parties` |
| IntakeForm.ReadWideSheet | app.py:492-522 | the wide branch returns `ReadIntake` of the sheet |
| IntakeForm.ReadIntakeForm | app.py:476-522 | `_read_intake_form` returns `ReadIntake` of the sheet, including `IndexError` for an empty one |
| IntakeForm.ReadIntake | app.py:476-522 | the specification of `_read_intake_form`: `IndexError` on an empty sheet, one record for a key-value sheet, otherwise the tagged non-empty parties; pinned down by KeyValueOneRecord, WideIntake and PartiesAreNonEmpty |
| Household.NonEmptyPartsKept | app.py:527 | `_full_name` keeps exactly the non-empty parts |
| Household.NonEmptyPartsOne | app.py:527 | one part is kept exactly when it is non-empty |
| Household.NonEmptyPartsAppend | app.py:527 | the filter distributes over concatenation, so it keeps the non-empty parts in order and with their multiplicity |
| Household.NonEmptyPartsStripped | app.py:527 | trimmed parts stay trimmed, and the kept ones are non-empty |
| Household.FullNameOfStrippedParts | app.py:525-527 | with trimmed name fields, `_full_name` is the non-empty First Name, Middle Initial and Last Name, in that order, joined by single spaces |
| Household.FullNameOfFirstLast | app.py:525-527 | separate non-empty First Name and Last Name and no Middle Initial give "First Last" |
| Household.FullNameOfSplitName | app.py:525-527 | a name split by the normalizer into 2 or 3 tokens and joined again by `_full_name` is its tokens joined by single spaces, provided the record holds no earlier Middle Initial (a 2-token split leaves one in place) |
| Household.FullName | app.py:525-527 | `_full_name` is already trimmed |
| Household.ChildKeysDistinct | app.py:887-892 | the merge's keys never collide: each child's name and DOB keys are unique and differ from the spouse keys |
| Household.ChildKeysOnly | app.py:890-892 | the child keys are "Child k Name"/"Child k DOB" for k from 1 to m |
| Household.WithChildrenKeys | app.py:889-892 | the merge adds exactly the keys of children 1..m |
| Household.WithChildrenKeeps | app.py:889-892 | keys other than the child keys keep their values |
| Household.WithChildrenAt | app.py:890-892 | child k's name is `_full_name` of party k+1 and its DOB that party's "Date of Birth", or "" |
| Household.WithChildrenSnoc | app.py:890-892 | the children are written in order, the last one last |
| Household.HouseholdFields | app.py:884-893 | with 2 or more parties: Spouse Name and Spouse DOB come from party 1, Child k entries from party k+1, the keys are party 0's plus the merge's, and every other value of party 0 is kept |
| Household.HouseholdOfOne | app.py:898-899 | one party is used unchanged |
| Household.Household | app.py:884-899 | a household record exists exactly when at least one party was read |
| Household.ComposeHousehold | app.py:884-899 | the in-place merge computes `Household` |
| Household.ChildRunBound | app.py:542 | the `while` over "Child k Name" keys stops: the run cannot outgrow the record |
| Household.BuildBeneficiaryNotes | app.py:531-546 | the notes loop computes `BeneficiaryNotes`: named beneficiaries 1 and 2, then the spouse, then children 1.. while their name key exists |
| Household.BeneficiaryNotes | app.py:531-546 | the specification of the notes loop: named beneficiaries 1 and 2, the spouse, then the children; HouseholdNotes states it for a merged household |
| Household.NotMergeKey | app.py:533-536 | the beneficiary keys are not written by the merge |
| Household.PastLastChild | app.py:542 | the merge writes no name key past the last child, so the notes loop stops there provided party 0 holds no "Child m+1 Name" of its own (m = the number of merged children) |
| Household.HouseholdBeneficiary | app.py:532-537 | the merge leaves the beneficiary notes of party 0 as they are |
| Household.HouseholdSpouseNote | app.py:538-540 | a household's spouse note names party 1, with its DOB, when the name is non-empty |
| Household.HouseholdChildNotes | app.py:541-546 | a household's child notes are those of parties 2.., numbered from 1, provided party 0 holds no "Child m+1 Name" of its own (m = the number of merged children) |
| Household.MergedChildNotes | app.py:541-546 | the notes loop reads back exactly the children the merge wrote, provided the record holds no "Child m+1 Name" (m = the number of merged children) |
| Household.HouseholdNotes | app.py:531-546 | a household's notes are party 0's beneficiaries, then the spouse, then the children, provided party 0 holds no "Child m+1 Name" of its own (m = the number of merged children); otherwise the loop also lists that entry |
| Household.DoRegister | app.py:530-572 | registration creates one contact under a fresh id, with the canonical fields and the notes joined by a bar between two spaces on each side, returns the stored record, and advances the sequence number by one |
| Household.RegisteredRecord | app.py:548-567 | the stored record reads back as exactly the arguments built from the intake (each of the 18 intake fields under its CRM name, and the joined notes as its description), with its id and record type |
| Crm.ContactId | wealth_agent.py:56 | an id is "003" followed by digits ending in the sequence number |
| Crm.ContactIdLength | wealth_agent.py:56 | below 10^13 an id has 16 characters |
| Crm.ContactIdValue | wealth_agent.py:56 | the digits after "003" read back as the sequence number |
| Crm.ContactIdInjective | wealth_agent.py:56-57 | different sequence numbers give different ids |
| Crm.NewRecord | wealth_agent.py:58-63 | the record holds Id, RecordType and CreatedDate plus every supplied field; supplied fields win |
| Crm.MockSalesforce.constructor | wealth_agent.py:51-52 | the store starts empty at sequence 1000 |
| Crm.MockSalesforce.CreateContact | wealth_agent.py:55-65 | the id is built from the current sequence number, the number goes up by one, the new record is stored under a fresh id, other records are unchanged, and the result is success with no errors |
| Crm.CreatedIdIsNew | wealth_agent.py:56-64 | a stored id was issued for an earlier number, so the next id is new |
| Crm.ContactFieldsRoundTrip | wealth_agent.py:308-328 | every argument can be read back from its CRM field: no two arguments share a field |
| Crm.StoredContactRoundTrip | wealth_agent.py:308-328 | the stored contact carries every argument, its id and the record type |
| Crm.ContactFields | wealth_agent.py:308-328 | the renaming of the 19 arguments to CRM field names; ContactFieldsRoundTrip shows it loses nothing |
| Crm.CreateSalesforceContact | wealth_agent.py:263-329 | creating a contact stores the renamed fields under the next id and returns success |
| Crm.DropNonWord | wealth_agent.py:239 | exactly the leading run of non-word characters is removed: the result is a suffix starting with a word character (or empty), and everything before it is non-word |
| Crm.DropNonWordRun | wealth_agent.py:239 | a non-word run followed by a word character (or nothing) is dropped up to that character |
| Crm.CollapseNonWord | wealth_agent.py:239 | after substitution only word characters remain |
| Crm.CollapseNonWordFrom | wealth_agent.py:239 | every character of the result is "_" or a character of the text |
| Crm.CollapseOfWordChars | wealth_agent.py:239 | text of word characters only is left as it is |
| Crm.CollapseRuns | wealth_agent.py:239 | a run of word characters is kept and the maximal non-word run after it becomes one "_"; with CollapseOfWordChars this fixes `re.sub(r"[^\w]+", "_", …)` run by run |
| Crm.StripUnderscores | wealth_agent.py:239 | `strip("_")` is the slice after the leading "_" run with only "_" after it, and neither starts nor ends with "_" |
| Crm.StripUnderscoresClean | wealth_agent.py:239 | text without "_" at either end is its own `strip("_")` |
| Crm.StripUnderscoresFramed | wealth_agent.py:239 | one "_" at each end of such a text is removed |
| Crm.SlugStem | wealth_agent.py:239 | the slug holds only lower-case word characters and has no "_" at either end |
| Crm.SlugStemJoin | wealth_agent.py:239 | two lower-case alphanumeric words joined by any non-word run give `word_word` |
| Crm.SlugStemFramed | wealth_agent.py:239 | non-word runs before and after a lower-case alphanumeric word leave just the word |
| Crm.SlugStemIdempotent | wealth_agent.py:239 | slugging a slug changes nothing |
| Crm.SlugStemIgnoresCase | app.py:617-618 | names that differ only in case have the same file name |
| Crm.ClientFileName | app.py:617-618 | `_name_to_filename` is the slug with ".xlsx"; SlugStemIgnoresCase and SameFileName state its properties |
| Crm.SameFileName | wealth_agent.py:244 | comparing file names is comparing stems |
| Crm.KeepAlnumSpace | wealth_agent.py:249 | only lower-case letters, digits and spaces are kept |
| Crm.KeepAlnumSpaceAppend | wealth_agent.py:249 | the filter works character by character: it distributes over concatenation |
| Crm.KeepAlnumSpaceChar | wealth_agent.py:249 | one character is kept exactly when it is a-z, 0-9 or a space |
| Crm.HasStem | wealth_agent.py:243-246 | the exact loop finds a file if and only if the slug is one of the stems |
| Crm.FirstPartialMatch | wealth_agent.py:249-253 | the partial loop returns the first stem containing every word, or none |
| Crm.FindClientFile | wealth_agent.py:233-260 | an exact slug match wins; otherwise the first partial match; "not found" with the available names if and only if neither exists |
| Registry.PublicIntake | app.py:385 | the stored intake is the intake without the keys starting with "__" |
| Registry.WithoutName | app.py:388 | filtering never adds entries |
| Registry.WithoutNameMembers | app.py:388 | an entry is kept if and only if its name differs in more than case |
| Registry.WithoutNameUnique | app.py:388 | filtering keeps the registry free of duplicates |
| Registry.Save | app.py:388-389 | the new entry goes last |
| Registry.Names | app.py:393-394 | one name per entry, in order |
| Registry.Lookup | app.py:397-398 | a found entry matches the name in any case and is the first such entry: no earlier entry matches |
| Registry.LookupNone | app.py:397-398 | nothing is found if and only if no entry matches |
| Registry.WithoutNameLookup | app.py:388 | removing one name leaves every other lookup unchanged |
| Registry.SaveThenLookup | app.py:388-398 | after saving, looking the name up in any case gives the new entry |
| Registry.SaveKeepsOthers | app.py:388-398 | saving leaves every other name's lookup unchanged |
| Registry.SaveKeepsUnique | app.py:388-389 | saving keeps names unique up to case and grows the list by at most one |
| Registry.SaveIdempotent | app.py:388-389 | saving the same entry twice is saving it once |
| Registry.Dedup | app.py:604-608 | de-duplication keeps the same case-insensitive names, with no two alike, all taken from the input |
| Registry.DedupKeepsFirstSpelling | app.py:604-608 | each kept name is the first spelling of that name in the input |
| Registry.LexLeTotal | app.py:609 | Python's string order is total |
| Registry.Insert | app.py:609 | insertion adds exactly the one name |
| Registry.Sort | app.py:609 | sorting is a permutation |
| Registry.InsertSorted | app.py:609 | insertion keeps a list sorted |
| Registry.SortSorted | app.py:609 | the sorted list is ordered and a permutation of the input |
| Registry.AllKnownClients | app.py:602-609 | the `seen`/`names` loop, then sorting, computes `Sort(Dedup(...))` |
| Registry.AllKnownClientsSpec | app.py:602-609 | the known-client list is sorted, is a permutation of the de-duplicated names, and covers every name of either source up to case |
| Registry.WithoutData | app.py:612-614 | a registered name is listed if and only if no workbook has it in any case |
| Forms.SplitName | pdf_filler.py:25-34 | first and middle initial have no whitespace, the initial has at most one character, and no first name means all three parts are empty |
| Forms.SplitNameOfTokens | pdf_filler.py:25-34 | 0 tokens give ("","",""); 1 token (t,"",""); 2 tokens (t0,"",t1); 3 or more give (t0, upper-cased first character of t1, the rest joined by single spaces) |
| Forms.SplitNameOfFour | pdf_filler.py:25-34 | a four-token name gives (a, upper-cased b[0], "c d") |
| Forms.SplitNameOfFullName | pdf_filler.py:25-34 | splitting `_full_name` of First/Middle/Last tokens gives them back, with the middle upper-cased to one character |
| Forms.NormalizedFour | app.py:416-424 | the normalizer on a four-token name keeps only the first and last tokens |
| Forms.SplittersDiffer | pdf_filler.py:25-34 | the two name splitters disagree on a four-token name |
| Forms.SampleNormalized | app.py:416-424 | "Mary Ann Van Dyke" normalizes to First "Mary", Last "Dyke" |
| Forms.FullNameRule | app.py:416 | the label "Full Name" selects the full-name split |
| Forms.ParseAddress | pdf_filler.py:37-54 | the country is always "USA"; an empty address gives all-empty parts; an address with no comma is the street as written; state and zip are whitespace-free |
| Forms.StateZipPiece | pdf_filler.py:48-50 | "ST ZIP" splits into the state and the zip |
| Forms.StrippedPieces | pdf_filler.py:44 | a formatted "street, city, ST ZIP" splits and strips into its three pieces |
| Forms.ParseOfThreeParts | pdf_filler.py:45-51 | three comma parts give street, city, and state/zip from the first two tokens of part 3 ("" if missing) |
| Forms.ParseFormatted | pdf_filler.py:37-54 | an address written as "street, city, ST ZIP" is read back into its parts |
| Forms.ParseSampleAddress | pdf_filler.py:37-54 | "1847 Lakeshire Dr, Naperville, IL 60540" gives ("1847 Lakeshire Dr", "Naperville", "IL", "60540", "USA") |
| Forms.FirstPresent | pdf_filler.py:164-166 | nested `get` fallbacks give the value of the first key *present*, or "" |
| Forms.OrEmpty | pdf_filler.py:133 | `co_client or {}` is empty unless the co-client is a non-empty dict |
| Forms.CoHolder | pdf_filler.py:122-129 | the co-holder's name and DOB come from a non-empty co-client's "Full Name", else from the client's "Co-Account Holder" entries |
| Forms.PersonalBaseValues | pdf_filler.py:99-119 | the mailing-address fields repeat the permanent-address fields |
| Forms.PersonalBaseName | pdf_filler.py:99-118 | the name parts go to PI_FirstName/PI_MI/PI_LastName and today to AS_Date03 |
| Forms.PersonalCoHolderValues | pdf_filler.py:138-157 | each co-holder address part falls back to the primary's part when empty, and the co-holder country is "USA" |
| Forms.PersonalCoHolderHas | pdf_filler.py:138-157 | the co-holder's name, DOB and today go to the "…02" fields and AS_Date04 |
| Forms.PersonalBaseKeysEnd | pdf_filler.py:99-119 | no primary key ends in "2" or "4" |
| Forms.PersonalCoHolderKeysEnd | pdf_filler.py:138-157 | every co-holder key ends in "2" or "4" |
| Forms.PersonalKeysApart | pdf_filler.py:99-157 | the primary and co-holder keys are disjoint |
| Forms.PersonalPrimaryKept | pdf_filler.py:138 | the co-holder update leaves every primary field as it was |
| Forms.PersonalCoHolderKept | pdf_filler.py:131-157 | with a co-holder name every co-holder field is written; without one the map is the primary fields alone |
| Forms.PersonalCoHolderAdded | pdf_filler.py:131-157 | the "…02" keys and AS_Date04 appear if and only if a co-holder name is found |
| Forms.PersonalAppFields | pdf_filler.py:84-159 | the field map of the personal application, primary fields updated by the co-holder's; stated by the PersonalBase…, PersonalCoHolder… and PersonalKeysApart rows |
| Forms.TrustBaseValues | pdf_filler.py:175-199 | the trust's name, TIN and date fields, the state of organization (State unless empty, else the parsed state), the trustee's name and CT_Date01 |
| Forms.TrustBaseKeysEnd | pdf_filler.py:175-199 | no trust key ends in "2" |
| Forms.SecondTrusteeKeysEnd | pdf_filler.py:206-218 | every second-trustee key ends in "2" |
| Forms.SecondTrusteeHas | pdf_filler.py:206-218 | the second trustee's name, DOB, SSN, email, phone and today, each address part (street, city, state, zip) its own when non-empty else the client's, and country "USA" |
| Forms.TrustKeysApart | pdf_filler.py:175-218 | the trust keys and second-trustee keys are disjoint |
| Forms.TrustNameOf | pdf_filler.py:164 | the trust name is Trust Name, else Entity Name, else Full Name, by presence |
| Forms.TrustNamed | pdf_filler.py:164-176 | ASU_NameofTrust follows that fallback chain |
| Forms.TrustOrganized | pdf_filler.py:167-179 | ASU_StateWhereOrganized is State unless it is empty, else the state parsed from the address |
| Forms.TrustPrimaryKept | pdf_filler.py:201-206 | a second trustee leaves every trust field as it was |
| Forms.TrustSecondTrustee | pdf_filler.py:201-218 | the second trustee's keys are present if and only if a non-empty `trustee2` is given |
| Forms.TrustAppFields | pdf_filler.py:162-220 | the field map of the trust application, trust fields updated by the second trustee's; stated by the Trust… and SecondTrustee… rows |
| Forms.AccountKeys | pdf_filler.py:243 | 15 keys: AI_Account, then AI_Account01..AI_Account14 |
| Forms.AccountKeyAt | pdf_filler.py:243 | key i > 0 is "AI_Account" followed by i zero-padded to 2 digits |
| Forms.AccountKeysDistinct | pdf_filler.py:243 | the 15 account keys all start with "AI_Account" and are pairwise different |
| Forms.AccountKeysApart | pdf_filler.py:243 | two different positions have different keys |
| Forms.KeptAccounts | pdf_filler.py:244 | at most the first 15 accounts are kept, in order |
| Forms.AssignedSnoc | pdf_filler.py:244-245 | the loop writes one account per step, in order |
| Forms.AssignedValues | pdf_filler.py:244-245 | account i lands under key i, and other keys are untouched |
| Forms.WriteAccounts | pdf_filler.py:244-245 | the account loop computes `Assigned` |
| Forms.AdvisorFields | pdf_filler.py:223-247 | `fill_add_remove_advisor`'s map is its base fields with the kept accounts assigned |
| Forms.AdvisorBaseKeys | pdf_filler.py:232-242 | no base field is an account key, and the owner, first name, advisor and date fields hold their values |
| Forms.AdvisorAccounts | pdf_filler.py:227-245 | account i is under key i, and every base field keeps its value through the account loop |
| Forms.JournalOwner | pdf_filler.py:250-268 | RAI_OwnerName is the receiving owner if non-empty, else Full Name; the defaults give firm "IWS" |
| Forms.JournalFields | pdf_filler.py:250-269 | the field map of the journal request; JournalOwner states its owner and firm fields |
| Forms.Written | pdf_filler.py:69-72 | a widget is written exactly when its name maps to a non-empty value, and its name never changes |
| Forms.FilledDoc | pdf_filler.py:67-72 | the filled document has one filled page per page, each filled by the same map |
| Forms.FilledDocSnoc | pdf_filler.py:67 | pages are filled in order |
| Forms.Fill | pdf_filler.py:57-77 | `_fill` raises `FileNotFoundError` for a missing template and otherwise fills each page |
| Forms.FilledDocShape | pdf_filler.py:67-72 | filling keeps the page count, widget count and widget names |
| Forms.FillIdempotent | pdf_filler.py:67-72 | filling twice with the same map is filling once |
| Forms.FillWithEmptyValues | pdf_filler.py:70 | a map of empty values writes nothing |
| Forms.FillTwice | pdf_filler.py:67-72 | filling with f, then with a map g of non-empty values, is filling with f updated by g |
| Forms.Escape | pdf_filler.py:295 | escaping never shortens the text |
| Forms.EscapeVerbatim | pdf_filler.py:295 | text without a backslash or the quote comes back unchanged |
| Forms.EscapeCons | pdf_filler.py:295 | a backslash or the quote gets a backslash in front; any other character is copied |
| Forms.EscapeAppend | pdf_filler.py:295 | escaping works character by character: it distributes over concatenation |
| Forms.UnescapeEscape | pdf_filler.py:295 | reading the escaped text back gives the text, so the escape loses nothing |
| Forms.Repr | pdf_filler.py:295 | the repr starts and ends with the same quote: a double quote when the text has a single quote and no double quote, otherwise a single quote; it is at least two characters longer than the text |
| Forms.ReprReadBack | pdf_filler.py:295 | the text between the quotes of the repr reads back as the key, so different keys give different messages |
| Forms.FillForm | pdf_filler.py:276-295 | the method returns `FormResult`: each of the four keys fills its form with its own builder; any other key raises `ValueError("Unknown form key: " + repr(key))` |
| Forms.FillFormErrors | pdf_filler.py:276-295 | of `FormResult`: `ValueError` occurs if and only if the key is unknown, with the message naming it; with every template present, the result is a document if and only if the key is known |
| Forms.FillOutcome | pdf_filler.py:57-64 | `_fill` gives a document if and only if its template exists, and otherwise `FileNotFoundError` |

## Left out

- Reading workbooks (pandas), JSON encoding and decoding, the file system
  (the registry file, client workbooks, uploads), Streamlit pages and
  session state, the LLM client and prompts, and floating-point money
  arithmetic.
  - The sheet is given as a table of strings after `fillna("")` and `str()`.
  - The registry is the list itself.
  - `find_client_file` works over a list of file stems. It returns the
    matching stem, not a path and sheet names.
- Wall-clock time (`utcnow`, `date.today`) is a parameter (`createdAt`,
  `registeredAt`, `today`).
- Unicode: `lower()`, `upper()`, `isspace()` and `\w` are modelled on ASCII.
- `.title()` on the display names of available files is left out.
  `Crm.Available` replaces "_" with " " only.
- Crm.FindClientFile: does not return the path or the sheet names, because
  those come from the file system.
- Forms.Fill: PyMuPDF's widget update and the saving of the document to
  bytes are left out. The result is the filled document of pages of named
  widgets. Values are strings, so `str()` is the identity. The
  `FileNotFoundError` carries the template's file name rather than its
  full path under the forms directory.
- Forms.Repr: escapes only the backslash and the chosen quote. Python's
  repr also escapes control and non-printable characters.
- Forms.FillForm: extra keyword arguments are given as one record per form.
  The `TypeError` Python raises for an unexpected keyword is not modelled.
- Forms.PersonalAppFields, Forms.TrustAppFields and Forms.JournalFields
  model the dict built and then updated as one map expression. The update
  is a union in which the later keys win.
- `_mock_register_client` (wealth_agent.py) duplicates the notes logic and
  reads files, so it is left out.
- `Registry.Lookup` reads `r["name"]` of every entry. Entries are well
  formed by construction, so the `KeyError` a nameless entry would raise is
  not modelled. The same holds for `.get("name", "")` in the update.
- IntakeForm.ReadWideRow: the `if i >= n: break` test is left out. A
  table's rows all have the first row's width (`IsFrame`), so the test never
  holds.
- The JSON payload of a found file ("path", "sheets") and the reading of
  its sheets are left out.
- Intake.Normalize: the record is a map, so the insertion order of the
  dict `_normalize_fields` returns is not modelled. That order shows only
  in the key order of the registry JSON; no behaviour modelled here
  depends on it.

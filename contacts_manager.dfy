/** The contact list screen (src/components/contacts/ContactsManager.tsx):
    the CSV importer of `handleFileUpload`, the visible-list filter, the
    selection set behind the check boxes, and the display rules for a
    contact's name and tags. */
module ContactsManager {
  import opened Common

  /** A stored contact as the list receives it; the optional columns may be null. */
  datatype Contact = Contact(
    id: string,
    firstName: Option<string>,
    lastName: Option<string>,
    phone: string,
    email: Option<string>,
    tags: Option<seq<string>>,
    isActive: bool)

  // ---------------------------------------------------------------------
  // CSV import

  /** The contact built from one CSV line, before it is sent for import. */
  datatype ImportRow = ImportRow(
    firstName: string,
    lastName: string,
    phone: string,
    email: string,
    tags: seq<string>,
    customFields: map<string, string>,
    isActive: bool)

  const EmptyRow := ImportRow("", "", "", "", [], map[], true)

  /** The field a header selects, by the `switch` on its lower-cased text. */
  datatype Field = FirstName | LastName | Phone | Email | Custom

  /** Only ASCII letters occur in the case labels, and no other character
      lower-cases to one of them, so ASCII lowering decides the switch. */
  function FieldOf(header: string): Field {
    var h := Lower(header);
    if h == "first_name" || h == "firstname" then FirstName
    else if h == "last_name" || h == "lastname" then LastName
    else if h == "phone" || h == "mobile" then Phone
    else if h == "email" then Email
    else Custom
  }

  /** `replace(/"/g, '')`. */
  function RemoveQuotes(s: string): (r: string)
    ensures '"' !in r
    ensures |r| <= |s|
    ensures '"' !in s ==> r == s
  {
    if |s| == 0 then ""
    else if s[0] == '"' then RemoveQuotes(s[1..])
    else [s[0]] + RemoveQuotes(s[1..])
  }

  /** Every trimmed field with its quotes removed, position by position. */
  function Cleaned(values: seq<string>): (r: seq<string>)
    ensures |r| == |values|
    ensures forall i :: 0 <= i < |values| ==> r[i] == RemoveQuotes(values[i]) && '"' !in r[i]
  {
    seq(|values|, i requires 0 <= i < |values| => RemoveQuotes(values[i]))
  }

  /** `values[index]?.replace(/"/g, '') || ''` over the cleaned fields: a
      missing column reads as ''. */
  function ValueAt(cells: seq<string>, index: nat): (v: string)
    ensures index >= |cells| ==> v == ""
    ensures index < |cells| ==> v == cells[index]
  {
    if index < |cells| then cells[index] else ""
  }

  function TrimAll(parts: seq<string>): (r: seq<string>)
    ensures |r| == |parts|
    ensures forall i :: 0 <= i < |parts| ==> r[i] == Trim(parts[i])
  {
    seq(|parts|, i requires 0 <= i < |parts| => Trim(parts[i]))
  }

  /** One step of the `headers.forEach` body. */
  function ApplyColumn(row: ImportRow, header: string, value: string): ImportRow {
    match FieldOf(header)
    case FirstName => row.(firstName := value)
    case LastName => row.(lastName := value)
    case Phone => row.(phone := value)
    case Email => row.(email := value)
    case Custom => if value != "" then row.(customFields := row.customFields[header := value]) else row
  }

  /** The row after the first `n` columns have been applied, reading the
      cleaned fields `values`. */
  function RowFrom(headers: seq<string>, values: seq<string>, n: nat): (row: ImportRow)
    requires n <= |headers|
    ensures row.tags == [] && row.isActive
  {
    if n == 0 then EmptyRow
    else ApplyColumn(RowFrom(headers, values, n - 1), headers[n - 1], ValueAt(values, n - 1))
  }

  /** The loop that builds one contact, field by field. */
  method BuildRow(headers: seq<string>, values: seq<string>) returns (row: ImportRow)
    ensures row == RowFrom(headers, Cleaned(values), |headers|)
  {
    row := EmptyRow;
    for i := 0 to |headers|
      invariant row == RowFrom(headers, Cleaned(values), i)
    {
      var header := headers[i];
      var value := if i < |values| then RemoveQuotes(values[i]) else "";
      var field := FieldOf(header);
      if field == FirstName {
        row := row.(firstName := value);
      } else if field == LastName {
        row := row.(lastName := value);
      } else if field == Phone {
        row := row.(phone := value);
      } else if field == Email {
        row := row.(email := value);
      } else if value != "" {
        row := row.(customFields := row.customFields[header := value]);
      }
    }
  }

  /** The contact one data line maps to: its fields split on ',', trimmed,
      and laid out under the headers. */
  function LineRow(headers: seq<string>, line: string): (row: ImportRow)
    ensures row.tags == [] && row.isActive
  {
    RowFrom(headers, Cleaned(TrimAll(Split(line, ','))), |headers|)
  }

  /** Lines after the header: blank ones skipped, then rows without a phone dropped. */
  function DataRows(headers: seq<string>, lines: seq<string>): (rows: seq<ImportRow>)
    ensures |rows| <= |lines|
    ensures forall i :: 0 <= i < |rows| ==> rows[i].tags == [] && rows[i].isActive && rows[i].phone != ""
  {
    if |lines| == 0 then []
    else
      var rest := DataRows(headers, lines[1..]);
      if Trim(lines[0]) == "" then rest
      else
        var row := LineRow(headers, lines[0]);
        if row.phone == "" then rest else [row] + rest
  }

  /** The header is line 0, split on ',' with each name trimmed. */
  function Headers(text: string): seq<string> {
    TrimAll(Split(Split(text, '\n')[0], ','))
  }

  /** The contacts `handleFileUpload` hands to the import. */
  function ParseCsv(text: string): (rows: seq<ImportRow>)
    ensures |rows| < |Split(text, '\n')|
    ensures forall i :: 0 <= i < |rows| ==> rows[i].tags == [] && rows[i].isActive && rows[i].phone != ""
  {
    var lines := Split(text, '\n');
    DataRows(Headers(text), lines[1..])
  }

  // The importer as the source chains it: `filter(line => line.trim())`,
  // then `map` to a contact, then `filter(contact => contact.phone)`.

  predicate NonBlank(line: string) { Trim(line) != "" }

  predicate HasPhone(row: ImportRow) { row.phone != "" }

  /** The `map` step: one contact per line, in order. */
  function LineRows(headers: seq<string>, lines: seq<string>): (rows: seq<ImportRow>)
    ensures |rows| == |lines|
    ensures forall i :: 0 <= i < |lines| ==> rows[i] == LineRow(headers, lines[i])
    decreases |lines|
  {
    if |lines| == 0 then [] else [LineRow(headers, lines[0])] + LineRows(headers, lines[1..])
  }

  /** Mapping one more line in front puts its contact in front. */
  lemma LineRowsCons(headers: seq<string>, line: string, lines: seq<string>)
    ensures LineRows(headers, [line] + lines) == [LineRow(headers, line)] + LineRows(headers, lines)
  {
    assert ([line] + lines)[1..] == lines;
  }

  /** A non-blank line adds its own contact when that contact has a phone,
      and nothing otherwise. */
  lemma NonBlankLineMapped(headers: seq<string>, line: string, lines: seq<string>)
    requires Trim(line) != ""
    ensures var row := LineRow(headers, line);
      DataRows(headers, [line] + lines) == (if row.phone == "" then [] else [row]) + DataRows(headers, lines)
  {
    assert ([line] + lines)[1..] == lines;
  }

  /** The recursive importer equals the filter, map, filter chain. */
  lemma {:induction false} DataRowsPipeline(headers: seq<string>, lines: seq<string>)
    ensures DataRows(headers, lines) == Filter(LineRows(headers, Filter(lines, NonBlank)), HasPhone)
    decreases |lines|
  {
    if |lines| > 0 {
      DataRowsPipeline(headers, lines[1..]);
      var kept := Filter(lines[1..], NonBlank);
      if NonBlank(lines[0]) {
        assert Filter(lines, NonBlank) == [lines[0]] + kept;
        LineRowsCons(headers, lines[0], kept);
        var mapped := LineRows(headers, kept);
        assert ([LineRow(headers, lines[0])] + mapped)[1..] == mapped;
      } else {
        assert Filter(lines, NonBlank) == kept;
      }
    }
  }

  /** `handleFileUpload` reads the headers from line 0 and maps every later
      line through the chain. */
  lemma ParseCsvPipeline(text: string)
    ensures var lines := Split(text, '\n');
      ParseCsv(text) == Filter(LineRows(TrimAll(Split(lines[0], ',')), Filter(lines[1..], NonBlank)), HasPhone)
  {
    var lines := Split(text, '\n');
    DataRowsPipeline(Headers(text), lines[1..]);
  }

  /** The value a row holds for one of the four named fields. */
  function FieldValue(row: ImportRow, f: Field): string
    requires f != Custom
  {
    match f
    case FirstName => row.firstName
    case LastName => row.lastName
    case Phone => row.phone
    case Email => row.email
  }

  /** The last of the first `n` columns whose header selects `f`. */
  function LastColumn(headers: seq<string>, f: Field, n: nat): (j: Option<nat>)
    requires n <= |headers|
    ensures j.Some? ==> j.value < n && FieldOf(headers[j.value]) == f
    ensures j.Some? ==> forall k :: j.value < k < n ==> FieldOf(headers[k]) != f
    ensures j.None? ==> forall k :: 0 <= k < n ==> FieldOf(headers[k]) != f
  {
    if n == 0 then None
    else if FieldOf(headers[n - 1]) == f then Some(n - 1)
    else LastColumn(headers, f, n - 1)
  }

  /** One column sets the named field its header selects and leaves the
      other named fields alone. */
  lemma ApplyColumnField(row: ImportRow, header: string, value: string, f: Field)
    requires f != Custom
    ensures FieldValue(ApplyColumn(row, header, value), f) == if FieldOf(header) == f then value else FieldValue(row, f)
  {
  }

  /** A named field holds the value of the last column mapped to it, and ''
      when no column is. */
  lemma {:induction false} LaterColumnWins(headers: seq<string>, values: seq<string>, n: nat, f: Field)
    requires n <= |headers| && f != Custom
    ensures var j := LastColumn(headers, f, n);
      FieldValue(RowFrom(headers, values, n), f) == if j.Some? then ValueAt(values, j.value) else ""
  {
    if n > 0 {
      LaterColumnWins(headers, values, n - 1, f);
      ColumnStep(headers, values, n, f);
      if FieldOf(headers[n - 1]) == f {
        assert LastColumn(headers, f, n) == Some(n - 1);
      } else {
        assert LastColumn(headers, f, n) == LastColumn(headers, f, n - 1);
      }
    }
  }

  /** Column n - 1 either selects `f`, and then its value and position win,
      or it leaves both as the earlier columns had them. */
  lemma ColumnStep(headers: seq<string>, values: seq<string>, n: nat, f: Field)
    requires 0 < n <= |headers| && f != Custom
    ensures var hit := FieldOf(headers[n - 1]) == f;
      && FieldValue(RowFrom(headers, values, n), f)
           == (if hit then ValueAt(values, n - 1) else FieldValue(RowFrom(headers, values, n - 1), f))
      && LastColumn(headers, f, n) == (if hit then Some(n - 1) else LastColumn(headers, f, n - 1))
  {
    ApplyColumnField(RowFrom(headers, values, n - 1), headers[n - 1], ValueAt(values, n - 1), f);
  }

  /** Column `j` files its value under `key` as a custom field. */
  predicate CustomColumn(headers: seq<string>, values: seq<string>, j: nat, key: string)
    requires j < |headers|
  {
    headers[j] == key && FieldOf(key) == Custom && ValueAt(values, j) != ""
  }

  /** One column adds the custom field named by its header, if it is one,
      and touches no other custom field. */
  lemma ApplyColumnCustom(row: ImportRow, header: string, value: string, key: string)
    ensures var r := ApplyColumn(row, header, value);
      (key in r.customFields <==> key in row.customFields || (header == key && FieldOf(key) == Custom && value != ""))
      && (header == key && FieldOf(key) == Custom && value != "" ==> r.customFields[key] == value)
      && (key in row.customFields && !(header == key && FieldOf(key) == Custom && value != "") ==>
            r.customFields[key] == row.customFields[key])
  {
  }

  /** A custom field holds exactly the headers that are none of the named
      ones and whose column has a non-empty value, under the header itself. */
  lemma {:induction false} CustomFieldsCollected(headers: seq<string>, values: seq<string>, n: nat, key: string)
    requires n <= |headers|
    ensures key in RowFrom(headers, values, n).customFields <==>
      exists j :: 0 <= j < n && CustomColumn(headers, values, j, key)
  {
    if n > 0 {
      CustomFieldsCollected(headers, values, n - 1, key);
      CustomColumnStep(headers, values, n, key);
      if CustomColumn(headers, values, n - 1, key) {
        assert 0 <= n - 1 < n;
      } else if key in RowFrom(headers, values, n - 1).customFields {
        var j :| 0 <= j < n - 1 && CustomColumn(headers, values, j, key);
        assert 0 <= j < n;
      } else {
        forall j | 0 <= j < n
          ensures !CustomColumn(headers, values, j, key)
        {
          if j < n - 1 {
            assert !(0 <= j < n - 1 && CustomColumn(headers, values, j, key));
          }
        }
      }
    }
  }

  /** The stored value is that of the last such column. */
  lemma {:induction false} CustomFieldLastValue(headers: seq<string>, values: seq<string>, n: nat, key: string, j: nat)
    requires j < n <= |headers|
    requires CustomColumn(headers, values, j, key)
    requires forall k :: j < k < n ==> !CustomColumn(headers, values, k, key)
    ensures key in RowFrom(headers, values, n).customFields
    ensures RowFrom(headers, values, n).customFields[key] == ValueAt(values, j)
  {
    if n - 1 > j {
      assert !CustomColumn(headers, values, n - 1, key);
      CustomFieldLastValue(headers, values, n - 1, key, j);
      CustomFieldKept(headers, values, n, key, ValueAt(values, j));
    } else {
      CustomColumnStep(headers, values, n, key);
    }
  }

  /** A column that is not a custom column for `key` keeps its value. */
  lemma CustomFieldKept(headers: seq<string>, values: seq<string>, n: nat, key: string, v: string)
    requires 0 < n <= |headers|
    requires !CustomColumn(headers, values, n - 1, key)
    requires key in RowFrom(headers, values, n - 1).customFields
    requires RowFrom(headers, values, n - 1).customFields[key] == v
    ensures key in RowFrom(headers, values, n).customFields
    ensures RowFrom(headers, values, n).customFields[key] == v
  {
    CustomColumnStep(headers, values, n, key);
  }

  /** Column `n - 1` either files its own value under `key` or keeps the
      value the earlier columns left there. */
  lemma CustomColumnStep(headers: seq<string>, values: seq<string>, n: nat, key: string)
    requires 0 < n <= |headers|
    ensures var r, p := RowFrom(headers, values, n).customFields, RowFrom(headers, values, n - 1).customFields;
      (key in r <==> key in p || CustomColumn(headers, values, n - 1, key))
      && (CustomColumn(headers, values, n - 1, key) ==> key in r && r[key] == ValueAt(values, n - 1))
      && (!CustomColumn(headers, values, n - 1, key) && key in p ==> key in r && r[key] == p[key])
  {
    ApplyColumnCustom(RowFrom(headers, values, n - 1), headers[n - 1], ValueAt(values, n - 1), key);
  }

  /** A quote-free value is stored quote-free. */
  lemma ApplyColumnNoQuotes(row: ImportRow, header: string, value: string)
    requires NoQuotes(row) && '"' !in value
    ensures NoQuotes(ApplyColumn(row, header, value))
  {
  }

  predicate NoQuotes(row: ImportRow) {
    '"' !in row.firstName && '"' !in row.lastName && '"' !in row.phone && '"' !in row.email
    && forall k :: k in row.customFields ==> '"' !in row.customFields[k]
  }

  /** No quote character survives in any imported value. */
  lemma ValuesHaveNoQuotes(headers: seq<string>, values: seq<string>, n: nat)
    requires n <= |headers|
    ensures NoQuotes(RowFrom(headers, Cleaned(values), n))
  {
    QuoteFreeCells(headers, Cleaned(values), n);
  }

  /** Quote-free fields give a quote-free row. */
  lemma {:induction false} QuoteFreeCells(headers: seq<string>, cells: seq<string>, n: nat)
    requires n <= |headers|
    requires forall i :: 0 <= i < |cells| ==> '"' !in cells[i]
    ensures NoQuotes(RowFrom(headers, cells, n))
  {
    if n > 0 {
      QuoteFreeCells(headers, cells, n - 1);
      var value := ValueAt(cells, n - 1);
      assert '"' !in value;
      ApplyColumnNoQuotes(RowFrom(headers, cells, n - 1), headers[n - 1], value);
    }
  }

  /** A line that is blank after trimming adds no contact. */
  lemma BlankLineSkipped(headers: seq<string>, line: string, lines: seq<string>)
    requires Trim(line) == ""
    ensures DataRows(headers, [line] + lines) == DataRows(headers, lines)
  {
    assert ([line] + lines)[1..] == lines;
  }

  /** Header matching ignores ASCII case, and accepts the alternative names. */
  lemma HeaderAliases(h: string)
    ensures Lower(h) == "mobile" ==> FieldOf(h) == Phone
    ensures Lower(h) == "firstname" ==> FieldOf(h) == FirstName
    ensures Lower(h) == "lastname" ==> FieldOf(h) == LastName
    ensures FieldOf(h) == Custom <==>
      Lower(h) !in {"first_name", "firstname", "last_name", "lastname", "phone", "mobile", "email"}
  {
  }

  // ---------------------------------------------------------------------
  // Visible list

  /** `x?.toLowerCase().includes(term.toLowerCase())`: an absent value does not match. */
  predicate OptionalIncludes(x: Option<string>, term: string) {
    x.Some? && Contains(Lower(x.value), Lower(term))
  }

  predicate SomeTagIncludes(tags: Option<seq<string>>, term: string) {
    tags.Some? && exists i :: 0 <= i < |tags.value| && Contains(Lower(tags.value[i]), Lower(term))
  }

  /** The phone is searched as written; the other fields ignore ASCII case. */
  predicate MatchesSearch(c: Contact, term: string) {
    OptionalIncludes(c.firstName, term) || OptionalIncludes(c.lastName, term)
    || Contains(c.phone, term) || OptionalIncludes(c.email, term) || SomeTagIncludes(c.tags, term)
  }

  predicate MatchesStatus(c: Contact, statusFilter: string) {
    statusFilter == "all" || (statusFilter == "active" && c.isActive)
    || (statusFilter == "inactive" && !c.isActive)
  }

  predicate Visible(c: Contact, term: string, statusFilter: string) {
    MatchesSearch(c, term) && MatchesStatus(c, statusFilter)
  }

  /** `filteredContacts`. */
  function FilteredContacts(contacts: seq<Contact>, term: string, statusFilter: string): (r: seq<Contact>)
    ensures |r| <= |contacts|
    ensures forall i :: 0 <= i < |r| ==> Visible(r[i], term, statusFilter)
    ensures forall c :: c in r <==> c in contacts && Visible(c, term, statusFilter)
  {
    if |contacts| == 0 then []
    else
      var rest := FilteredContacts(contacts[1..], term, statusFilter);
      if Visible(contacts[0], term, statusFilter) then
        assert forall c :: c in contacts <==> c == contacts[0] || c in contacts[1..];
        [contacts[0]] + rest
      else
        assert forall c :: c in contacts <==> c == contacts[0] || c in contacts[1..];
        rest
  }

  /** The list keeps its order: the visible contacts are a subsequence. */
  lemma {:induction false} FilteredKeepsOrder(contacts: seq<Contact>, term: string, statusFilter: string)
    ensures IsSubsequence(FilteredContacts(contacts, term, statusFilter), contacts)
  {
    if |contacts| > 0 {
      FilteredKeepsOrder(contacts[1..], term, statusFilter);
      var r := FilteredContacts(contacts, term, statusFilter);
      if !Visible(contacts[0], term, statusFilter) && |r| > 0 && r[0] == contacts[0] {
        assert false;
      }
      if Visible(contacts[0], term, statusFilter) {
        assert r[1..] == FilteredContacts(contacts[1..], term, statusFilter);
      }
    }
  }

  /** An empty search with the 'all' filter shows every contact. */
  lemma {:induction false} EmptySearchShowsAll(contacts: seq<Contact>)
    ensures FilteredContacts(contacts, "", "all") == contacts
  {
    if |contacts| > 0 {
      ContainsEmpty(contacts[0].phone);
      EmptySearchShowsAll(contacts[1..]);
    }
  }

  /** For any search, the 'active' and 'inactive' lists split the 'all' list. */
  lemma {:induction false} StatusFiltersPartition(contacts: seq<Contact>, term: string)
    ensures |FilteredContacts(contacts, term, "active")| + |FilteredContacts(contacts, term, "inactive")|
      == |FilteredContacts(contacts, term, "all")|
  {
    if |contacts| > 0 {
      StatusFiltersPartition(contacts[1..], term);
    }
  }

  // ---------------------------------------------------------------------
  // Selection

  /** A row's box is ticked when some selected entry has its id. */
  predicate RowChecked(selected: seq<Contact>, c: Contact) {
    exists i :: 0 <= i < |selected| && selected[i].id == c.id
  }

  /** Ticking a row appends its contact. */
  function TickRow(selected: seq<Contact>, c: Contact): (r: seq<Contact>)
    ensures |r| == |selected| + 1 && r[..|selected|] == selected && r[|selected|] == c
    ensures RowChecked(r, c)
  {
    var r := selected + [c];
    assert r[|selected|] == c;
    r
  }

  /** After ticking `c`, a row is ticked iff it was ticked before or it is `c`'s. */
  lemma TickRowChecked(selected: seq<Contact>, c: Contact, d: Contact)
    ensures RowChecked(TickRow(selected, c), d) <==> RowChecked(selected, d) || d.id == c.id
  {
    var r := TickRow(selected, c);
    if RowChecked(selected, d) {
      var i :| 0 <= i < |selected| && selected[i].id == d.id;
      assert r[i] == selected[i];
    }
    if RowChecked(r, d) && d.id != c.id {
      var i :| 0 <= i < |r| && r[i].id == d.id;
      assert selected[i] == r[i];
    }
  }

  /** A row is ticked in `[x] + rest` when `x` or an entry of `rest` has its id. */
  lemma RowCheckedCons(x: Contact, rest: seq<Contact>, d: Contact)
    ensures RowChecked([x] + rest, d) <==> x.id == d.id || RowChecked(rest, d)
  {
    var r := [x] + rest;
    assert r[0] == x;
    if RowChecked(rest, d) {
      var i :| 0 <= i < |rest| && rest[i].id == d.id;
      assert r[i + 1] == rest[i];
    }
    if RowChecked(r, d) && x.id != d.id {
      var i :| 0 <= i < |r| && r[i].id == d.id;
      assert rest[i - 1] == r[i];
    }
  }

  /** Unticking a row removes every entry with its id. */
  function UntickRow(selected: seq<Contact>, c: Contact): (r: seq<Contact>)
    ensures !RowChecked(r, c)
    ensures forall d: Contact :: d.id != c.id ==> (RowChecked(r, d) <==> RowChecked(selected, d))
    ensures forall i :: 0 <= i < |r| ==> r[i] in selected
  {
    if |selected| == 0 then []
    else
      var rest := UntickRow(selected[1..], c);
      var r := if selected[0].id == c.id then rest else [selected[0]] + rest;
      UntickStep(selected, c, rest, r);
      r
  }

  /** One step of `UntickRow`: dropping or keeping the head keeps its
      contract, given the contract for the tail. */
  lemma UntickStep(selected: seq<Contact>, c: Contact, rest: seq<Contact>, r: seq<Contact>)
    requires |selected| > 0
    requires !RowChecked(rest, c)
    requires forall d: Contact :: d.id != c.id ==> (RowChecked(rest, d) <==> RowChecked(selected[1..], d))
    requires forall i :: 0 <= i < |rest| ==> rest[i] in selected[1..]
    requires r == if selected[0].id == c.id then rest else [selected[0]] + rest
    ensures !RowChecked(r, c)
    ensures forall d: Contact :: d.id != c.id ==> (RowChecked(r, d) <==> RowChecked(selected, d))
    ensures forall i :: 0 <= i < |r| ==> r[i] in selected
  {
    UntickKeepsOthers(selected, c, rest, r);
    UntickStepAt(selected, c, rest, r, c);
    UntickKeepsEntries(selected, c, rest, r);
  }

  /** The step keeps every other contact's tick as it was in `selected`. */
  lemma UntickKeepsOthers(selected: seq<Contact>, c: Contact, rest: seq<Contact>, r: seq<Contact>)
    requires |selected| > 0
    requires forall d: Contact :: d.id != c.id ==> (RowChecked(rest, d) <==> RowChecked(selected[1..], d))
    requires r == if selected[0].id == c.id then rest else [selected[0]] + rest
    ensures forall d: Contact :: d.id != c.id ==> (RowChecked(r, d) <==> RowChecked(selected, d))
  {
    forall d: Contact | d.id != c.id
      ensures RowChecked(r, d) <==> RowChecked(selected, d)
    {
      UntickStepAt(selected, c, rest, r, d);
    }
  }

  /** The step keeps only entries of `selected`. */
  lemma UntickKeepsEntries(selected: seq<Contact>, c: Contact, rest: seq<Contact>, r: seq<Contact>)
    requires |selected| > 0
    requires forall i :: 0 <= i < |rest| ==> rest[i] in selected[1..]
    requires r == if selected[0].id == c.id then rest else [selected[0]] + rest
    ensures forall i :: 0 <= i < |r| ==> r[i] in selected
  {
    forall i | 0 <= i < |r|
      ensures r[i] in selected
    {
      if selected[0].id != c.id && i == 0 {
        assert r[0] == selected[0];
      } else {
        var k := if selected[0].id == c.id then i else i - 1;
        assert r[i] == rest[k];
        TailEntry(selected, rest[k]);
      }
    }
  }

  /** An entry of the tail is an entry of the whole. */
  lemma TailEntry(selected: seq<Contact>, x: Contact)
    requires |selected| > 0 && x in selected[1..]
    ensures x in selected
  {
    var j :| 0 <= j < |selected| - 1 && selected[1..][j] == x;
    assert selected[j + 1] == x;
  }

  /** `UntickStep` for one contact `d`. */
  lemma UntickStepAt(selected: seq<Contact>, c: Contact, rest: seq<Contact>, r: seq<Contact>, d: Contact)
    requires |selected| > 0
    requires d.id == c.id ==> !RowChecked(rest, d)
    requires d.id != c.id ==> (RowChecked(rest, d) <==> RowChecked(selected[1..], d))
    requires r == if selected[0].id == c.id then rest else [selected[0]] + rest
    ensures d.id == c.id ==> !RowChecked(r, d)
    ensures d.id != c.id ==> (RowChecked(r, d) <==> RowChecked(selected, d))
  {
    assert selected == [selected[0]] + selected[1..];
    RowCheckedCons(selected[0], selected[1..], d);
    if selected[0].id != c.id {
      RowCheckedCons(selected[0], rest, d);
    }
  }

  /** The header box selects exactly the visible list, or clears the selection. */
  function HeaderToggle(filtered: seq<Contact>, checked: bool): seq<Contact> {
    if checked then filtered else []
  }

  /** The header box as written: ticked when the selection has as many
      entries as the visible list and that list is not empty. */
  predicate HeaderChecked(selected: seq<Contact>, filtered: seq<Contact>) {
    |selected| == |filtered| && |filtered| > 0
  }

  /** Ticking the header ticks the header and every visible row; unticking
      clears every row. */
  lemma HeaderToggleEffect(filtered: seq<Contact>)
    ensures |filtered| > 0 ==> HeaderChecked(HeaderToggle(filtered, true), filtered)
    ensures forall i :: 0 <= i < |filtered| ==> RowChecked(HeaderToggle(filtered, true), filtered[i])
    ensures forall d: Contact :: RowChecked(HeaderToggle(filtered, true), d) ==>
      exists i :: 0 <= i < |filtered| && filtered[i].id == d.id
    ensures forall c: Contact :: !RowChecked(HeaderToggle(filtered, false), c)
    ensures !HeaderChecked(HeaderToggle(filtered, false), filtered)
  {
  }

  /** The header box can show ticked while a visible row is not selected:
      select one contact, then change the search so that only another one
      is visible. */
  lemma HeaderCheckedWithoutSelection(a: Contact, b: Contact)
    requires a.id != b.id
    ensures HeaderChecked([a], [b]) && !RowChecked([a], b)
    ensures !AllVisibleSelected([a], [b])
  {
    assert [b][0] == b;
  }

  /** The header box as evidently intended: ticked when the visible list is
      not empty and every visible row is ticked. */
  predicate AllVisibleSelected(selected: seq<Contact>, filtered: seq<Contact>) {
    |filtered| > 0 && forall i :: 0 <= i < |filtered| ==> RowChecked(selected, filtered[i])
  }

  /** The intended header state agrees with the row boxes and with the
      header's own toggle. */
  lemma AllVisibleSelectedMeans(selected: seq<Contact>, filtered: seq<Contact>)
    ensures AllVisibleSelected(selected, filtered) <==>
      |filtered| > 0 && forall c :: c in filtered ==> RowChecked(selected, c)
    ensures |filtered| > 0 ==> AllVisibleSelected(HeaderToggle(filtered, true), filtered)
    ensures !AllVisibleSelected(HeaderToggle(filtered, false), filtered)
  {
    if |filtered| > 0 {
      assert RowChecked(HeaderToggle(filtered, false), filtered[0]) == false;
    }
  }

  // ---------------------------------------------------------------------
  // Display rules

  predicate Truthy(x: Option<string>) {
    x.Some? && x.value != ""
  }

  /** The name cell: the trimmed "first last" when either part is non-empty,
      else 'No Name'. */
  function DisplayName(c: Contact): (r: string)
    ensures !Truthy(c.firstName) && !Truthy(c.lastName) ==> r == "No Name"
  {
    if Truthy(c.firstName) || Truthy(c.lastName) then
      Trim(c.firstName.GetOr("") + " " + c.lastName.GetOr(""))
    else "No Name"
  }

  lemma TrimmedUnchanged(s: string)
    requires |s| > 0 && !IsJsWhitespace(s[0]) && !IsJsWhitespace(s[|s| - 1])
    ensures Trim(s) == s
  {
  }

  /** With both parts present and already trimmed, the name is them joined by a space. */
  lemma DisplayNameBothParts(c: Contact, f: string, l: string)
    requires c.firstName == Some(f) && c.lastName == Some(l)
    requires Trim(f) == f != "" && Trim(l) == l != ""
    ensures DisplayName(c) == f + " " + l
  {
    var s := f + " " + l;
    assert s[0] == f[0] && s[|s| - 1] == l[|l| - 1];
    TrimmedUnchanged(f);
    TrimmedUnchanged(l);
    TrimmedUnchanged(s);
  }

  /** With only a trimmed first name, the name is that first name. */
  lemma DisplayNameFirstOnly(c: Contact, f: string)
    requires c.firstName == Some(f) && !Truthy(c.lastName)
    requires Trim(f) == f != ""
    ensures DisplayName(c) == f
  {
    var s := f + " " + c.lastName.GetOr("");
    assert c.lastName.GetOr("") == "";
    assert s == f + " ";
    assert s[0] == f[0];
    assert TrimStart(s) == s;
    assert s[..|s| - 1] == f;
    TrimmedUnchanged(f);
    assert TrimEnd(f) == f;
  }

  /** With only a trimmed last name, the name is that last name: the
      leading space of " last" is trimmed away. */
  lemma DisplayNameLastOnly(c: Contact, l: string)
    requires !Truthy(c.firstName) && c.lastName == Some(l)
    requires Trim(l) == l != ""
    ensures DisplayName(c) == l
  {
    var s := c.firstName.GetOr("") + " " + l;
    assert c.firstName.GetOr("") == "";
    assert s == " " + l;
    assert s[1..] == l;
    TrimmedUnchanged(l);
    assert TrimStart(l) == l;
    assert TrimStart(s) == l;
    assert TrimEnd(l) == l;
  }

  /** The tag cell: at most two badges, then "+n" for the n not shown. */
  datatype TagBadges = TagBadges(shown: seq<string>, more: Option<string>)

  function Badges(tags: Option<seq<string>>): (b: TagBadges)
    ensures |b.shown| <= 2
    ensures tags.Some? ==> b.shown <= tags.value
    ensures b.more.Some? <==> tags.Some? && |tags.value| > 2
    ensures tags.None? ==> b == TagBadges([], None)
  {
    if tags.None? || |tags.value| == 0 then TagBadges([], None)
    else
      var t := tags.value;
      if |t| > 2 then TagBadges(t[..2], Some("+" + NatToString(|t| - 2)))
      else TagBadges(t, None)
  }

  /** The badges shown and the number on the last one account for every tag. */
  lemma BadgesCountEveryTag(tags: seq<string>)
    ensures var b := Badges(Some(tags));
      b.shown == tags[..if |tags| < 2 then |tags| else 2]
      && (b.more.Some? ==> b.more.value[0] == '+' && ParseInt(b.more.value[1..]) == Some(|tags| - |b.shown|))
  {
    if |tags| > 2 {
      var m := "+" + NatToString(|tags| - 2);
      assert m[1..] == NatToString(|tags| - 2);
      ParseIntOfNatToString(|tags| - 2);
    }
  }
}

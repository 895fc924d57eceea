/** The contacts data hook (src/hooks/useContacts.ts): the owner a query,
    a creation and an import are made for, the record each writes, and the
    rows a merge deletes. The contacts table is a value passed in and out. */
module Contacts {
  import opened Common
  import opened AuthProvider
  import opened Ownership

  /** The fields a caller hands to `createContact` or `importContacts`. The
      parameter type omits `user_id`, but a spread copies one if present, and
      it copies `custom_fields` and `metadata` along with the named columns.
      Both are free-form JSON objects, carried here as string-valued maps. */
  datatype ContactInput = ContactInput(
    firstName: string,
    lastName: string,
    email: Option<string>,
    phone: string,
    tags: Option<seq<string>>,
    isActive: Option<bool>,
    customFields: Option<map<string, string>>,
    metadata: Option<map<string, string>>,
    userId: Option<string>)

  /** The row sent to the `contacts` table. */
  datatype ContactRecord = ContactRecord(
    firstName: string,
    lastName: string,
    email: Option<string>,
    phone: string,
    tags: Option<seq<string>>,
    isActive: Option<bool>,
    customFields: Option<map<string, string>>,
    metadata: Option<map<string, string>>,
    userId: string)

  /** `{ ...contactData, user_id: currentUserId }`: the owner is written last. */
  function Stamp(input: ContactInput, owner: string): (r: ContactRecord)
    ensures r.userId == owner
    ensures r.firstName == input.firstName && r.lastName == input.lastName && r.email == input.email
    ensures r.phone == input.phone && r.tags == input.tags && r.isActive == input.isActive
    ensures r.customFields == input.customFields && r.metadata == input.metadata
  {
    ContactRecord(input.firstName, input.lastName, input.email, input.phone, input.tags, input.isActive,
                  input.customFields, input.metadata, owner)
  }

  /** Whatever user id the input carried, the stamped record belongs to the owner. */
  lemma StampOverridesUserId(input: ContactInput, owner: string, supplied: Option<string>)
    ensures Stamp(input.(userId := supplied), owner) == Stamp(input, owner)
    ensures Stamp(input, owner).userId == owner
  {
  }

  /** The contact `createContact` inserts, or its error. */
  function CreateContact(c: AuthContextValue, input: ContactInput): (r: Result<ContactRecord>)
    ensures r.Ok? <==> OwnerId(c).Ok?
    ensures r.Ok? ==> r.value == Stamp(input, OwnerId(c).value)
    ensures r.Err? ==> r.message == NoAuthenticatedUser
  {
    match OwnerId(c)
    case Ok(owner) => Ok(Stamp(input, owner))
    case Err(m) => Err(m)
  }

  /** A stored contact row. */
  datatype StoredContact = StoredContact(id: string, record: ContactRecord)

  /** The contacts query: the owner's rows, the owner error, or the read's
      own error (`if (error) throw error`). The database answers with the
      owner's rows of `table` or with `readError`; the order by `created_at`
      is the database's and is not modelled. */
  function ContactsQuery(c: AuthContextValue, table: seq<StoredContact>, readError: Option<string>)
    : (r: Result<seq<StoredContact>>)
    ensures r.Ok? <==> OwnerId(c).Ok? && readError.None?
    ensures OwnerId(c).Err? ==> r.Err? && r.message == NoAuthenticatedUser
    ensures OwnerId(c).Ok? && readError.Some? ==> r.Err? && r.message == readError.value
    ensures r.Ok? ==> forall i :: 0 <= i < |r.value| ==> r.value[i] in table && r.value[i].record.userId == OwnerId(c).value
    ensures r.Ok? ==> forall i :: 0 <= i < |table| && table[i].record.userId == OwnerId(c).value ==> table[i] in r.value
  {
    match OwnerId(c)
    case Ok(owner) =>
      if readError.Some? then Err(readError.value)
      else Ok(Filter(table, (s: StoredContact) => s.record.userId == owner))
    case Err(m) => Err(m)
  }

  /** In a published context the query is enabled exactly when it can resolve
      an owner, and it is keyed by that owner; an enabled query reports rows
      unless the read fails. */
  lemma QueryRunsForOwner(c: AuthContextValue, table: seq<StoredContact>, readError: Option<string>)
    requires WellFormed(c)
    ensures QueryEnabled(c) && readError.None? <==> ContactsQuery(c, table, readError).Ok?
    ensures QueryEnabled(c) ==> QueryKeyId(c) == Some(OwnerId(c).value)
  {
    OwnerResolvedIffEnabled(c);
  }

  // ---------------------------------------------------------------------
  // Import

  /** `contact.phone && contact.first_name && contact.last_name`. */
  predicate Importable(input: ContactInput) {
    input.phone != "" && input.firstName != "" && input.lastName != ""
  }

  /** The rows `importContacts` inserts: the importable inputs, in order, stamped. */
  function ImportRows(inputs: seq<ContactInput>, owner: string): (r: seq<ContactRecord>)
    ensures |r| <= |inputs|
    ensures forall i :: 0 <= i < |r| ==>
      r[i].userId == owner && r[i].phone != "" && r[i].firstName != "" && r[i].lastName != ""
    ensures forall i :: 0 <= i < |inputs| && Importable(inputs[i]) ==> Stamp(inputs[i], owner) in r
  {
    if |inputs| == 0 then []
    else
      var rest := ImportRows(inputs[1..], owner);
      assert forall i :: 1 <= i < |inputs| ==> inputs[i] == inputs[1..][i - 1];
      if Importable(inputs[0]) then [Stamp(inputs[0], owner)] + rest else rest
  }

  /** `rec` is the stamped form of some importable input. */
  predicate FromImportable(inputs: seq<ContactInput>, owner: string, rec: ContactRecord) {
    exists i :: 0 <= i < |inputs| && Importable(inputs[i]) && rec == Stamp(inputs[i], owner)
  }

  /** Every inserted row comes from an importable input. */
  lemma {:induction false} ImportedRowsFromInputs(inputs: seq<ContactInput>, owner: string)
    ensures forall k :: 0 <= k < |ImportRows(inputs, owner)| ==> FromImportable(inputs, owner, ImportRows(inputs, owner)[k])
  {
    if |inputs| > 0 {
      ImportedRowsFromInputs(inputs[1..], owner);
      var r := ImportRows(inputs, owner);
      var rest := ImportRows(inputs[1..], owner);
      forall k | 0 <= k < |r|
        ensures FromImportable(inputs, owner, r[k])
      {
        if Importable(inputs[0]) && k == 0 {
          assert r[0] == Stamp(inputs[0], owner);
        } else {
          var k' := if Importable(inputs[0]) then k - 1 else k;
          assert r[k] == rest[k'];
          assert FromImportable(inputs[1..], owner, rest[k']);
          var i :| 0 <= i < |inputs[1..]| && Importable(inputs[1..][i]) && rest[k'] == Stamp(inputs[1..][i], owner);
          assert inputs[i + 1] == inputs[1..][i];
          assert Importable(inputs[i + 1]) && r[k] == Stamp(inputs[i + 1], owner);
        }
      }
    }
  }

  function StampAll(inputs: seq<ContactInput>, owner: string): (r: seq<ContactRecord>)
    ensures |r| == |inputs|
    ensures forall i :: 0 <= i < |inputs| ==> r[i] == Stamp(inputs[i], owner)
  {
    seq(|inputs|, i requires 0 <= i < |inputs| => Stamp(inputs[i], owner))
  }

  /** The import filters, then stamps: the same as stamping the `filter` result. */
  lemma {:induction false} ImportIsFilterThenStamp(inputs: seq<ContactInput>, owner: string)
    ensures ImportRows(inputs, owner) == StampAll(Filter(inputs, Importable), owner)
  {
    if |inputs| > 0 {
      ImportIsFilterThenStamp(inputs[1..], owner);
      var tail := Filter(inputs[1..], Importable);
      if Importable(inputs[0]) {
        assert Filter(inputs, Importable) == [inputs[0]] + tail;
        StampAllCons(inputs[0], tail, owner);
      } else {
        assert Filter(inputs, Importable) == tail;
      }
    }
  }

  /** Stamping a list stamps its head, then its tail. */
  lemma StampAllCons(x: ContactInput, tail: seq<ContactInput>, owner: string)
    ensures StampAll([x] + tail, owner) == [Stamp(x, owner)] + StampAll(tail, owner)
  {
    var a, b := StampAll([x] + tail, owner), [Stamp(x, owner)] + StampAll(tail, owner);
    assert |a| == |b|;
    forall i | 0 <= i < |a| ensures a[i] == b[i] {
      if i > 0 {
        assert ([x] + tail)[i] == tail[i - 1];
      }
    }
  }

  /** What `importContacts` inserts, or its error. */
  function ImportContacts(c: AuthContextValue, inputs: seq<ContactInput>): (r: Result<seq<ContactRecord>>)
    ensures r.Ok? <==> OwnerId(c).Ok?
    ensures r.Err? ==> r.message == NoAuthenticatedUser
    ensures r.Ok? ==> r.value == ImportRows(inputs, OwnerId(c).value)
  {
    match OwnerId(c)
    case Ok(owner) => Ok(ImportRows(inputs, owner))
    case Err(m) => Err(m)
  }

  /** Import keeps the input order: the inserted rows are a subsequence of
      the stamped inputs. */
  lemma {:induction false} ImportKeepsOrder(inputs: seq<ContactInput>, owner: string)
    ensures IsSubsequence(ImportRows(inputs, owner), StampAll(inputs, owner))
  {
    if |inputs| > 0 {
      ImportKeepsOrder(inputs[1..], owner);
      var all := StampAll(inputs, owner);
      assert all[1..] == StampAll(inputs[1..], owner);
      var r := ImportRows(inputs, owner);
      if Importable(inputs[0]) {
        assert r[0] == all[0] && r[1..] == ImportRows(inputs[1..], owner);
      } else {
        SubsequenceSkip(r, all);
      }
    }
  }

  // ---------------------------------------------------------------------
  // Merge

  /** The contacts table keyed by id. */
  type Table = map<string, ContactRecord>

  /** `mergeContacts` as written: delete every row whose id is listed as a
      duplicate. */
  function MergeAsWritten(table: Table, primaryId: string, duplicateIds: seq<string>): (r: Table)
    ensures forall id :: id in r <==> id in table && id !in duplicateIds
    ensures forall id :: id in r ==> r[id] == table[id]
  {
    map id | id in table && id !in duplicateIds :: table[id]
  }

  /** As written, a primary id that is also listed as a duplicate is deleted. */
  lemma MergeCanDeletePrimary(table: Table, primaryId: string, duplicateIds: seq<string>)
    requires primaryId in table && primaryId in duplicateIds
    ensures primaryId !in MergeAsWritten(table, primaryId, duplicateIds)
  {
  }

  /** `mergeContacts` as evidently intended: delete the duplicates, but never
      the primary row that absorbs them. */
  function MergeContacts(table: Table, primaryId: string, duplicateIds: seq<string>): (r: Table)
    ensures primaryId in table ==> primaryId in r && r[primaryId] == table[primaryId]
    ensures forall id :: id in r <==> id in table && (id == primaryId || id !in duplicateIds)
    ensures forall id :: id in r ==> r[id] == table[id]
  {
    map id | id in table && (id == primaryId || id !in duplicateIds) :: table[id]
  }

  /** The two agree whenever the primary is not listed among its duplicates. */
  lemma MergeAgreesWhenPrimaryUnlisted(table: Table, primaryId: string, duplicateIds: seq<string>)
    requires primaryId !in duplicateIds
    ensures MergeContacts(table, primaryId, duplicateIds) == MergeAsWritten(table, primaryId, duplicateIds)
  {
  }

  // ---------------------------------------------------------------------
  // Contact groups

  /** A group as `createContactGroup` receives it. */
  datatype GroupInput = GroupInput(name: string, description: Option<string>, contactCount: int)

  /** There is no groups table yet: the hook's `contactGroups` is the literal
      `[]`, so no groups are ever reported. */
  const ContactGroups: seq<GroupInput> := []

  /** Creating a group only shows a notice: the contacts table is left as it was. */
  function CreateContactGroup(table: Table, group: GroupInput): (r: Table)
    ensures r == table
  {
    table
  }
}

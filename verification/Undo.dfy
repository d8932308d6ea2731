/** Undo: replaying a snapshot (src/hubspot_agent/cli.py, `_undo_action` and `_handle_undo`;
    src/hubspot_agent/validation.py, `filter_writable_properties`). */
module Undo {
  import opened Wrappers
  import opened Records
  import opened Tools
  import Pattern

  // ----- Which captured properties can be written back -----

  /** A cached schema entry: its name and, when it carries metadata, `readOnlyValue`. */
  datatype SchemaEntry = SchemaEntry(name: Prop, readOnlyValue: Option<bool>)

  const READ_ONLY_SYSTEM_PROPERTIES: set<Prop> :=
    {"hs_object_id", "createdate", "lastmodifieddate", "hs_createdate", "hs_lastmodifieddate",
     "hs_created_by_user_id", "hs_updated_by_user_id"}

  /** `readOnlyValue` as the last entry of that name with metadata gives it. */
  function Metadata(schema: seq<SchemaEntry>, name: Prop): Option<bool> {
    if schema == [] then None
    else
      var last := schema[|schema| - 1];
      if last.name == name && last.name != "" && last.readOnlyValue.Some? then last.readOnlyValue
      else Metadata(schema[..|schema| - 1], name)
  }

  predicate ReadOnly(schema: seq<SchemaEntry>, name: Prop) {
    match Metadata(schema, name)
    case Some(flag) => flag
    case None => name in READ_ONLY_SYSTEM_PROPERTIES
  }

  function Writable(schema: seq<SchemaEntry>, values: Values): Values {
    map k | k in values && !ReadOnly(schema, k) :: values[k]
  }

  method FilterWritableProperties(schema: seq<SchemaEntry>, properties: Values)
    returns (writable: Values, stripped: set<Prop>)
    ensures writable == Writable(schema, properties)
    ensures stripped == properties.Keys - writable.Keys
  {
    var metadataByName: map<Prop, bool> := map[];
    for i := 0 to |schema|
      invariant forall k :: Metadata(schema[..i], k) == if k in metadataByName then Some(metadataByName[k]) else None
    {
      var entry := schema[i];
      assert schema[..i + 1][..i] == schema[..i];
      if entry.name != "" && entry.readOnlyValue.Some? {
        metadataByName := metadataByName[entry.name := entry.readOnlyValue.value];
      }
    }
    assert schema[..|schema|] == schema;
    writable, stripped := map[], {};
    var names := properties.Keys;
    while names != {}
      invariant names <= properties.Keys
      invariant writable == map k | k in properties && k !in names && !ReadOnly(schema, k) :: properties[k]
      invariant stripped == set k | k in properties && k !in names && ReadOnly(schema, k)
      decreases names
    {
      var name :| name in names;
      names := names - {name};
      var readOnly := if name in metadataByName then metadataByName[name] else name in READ_ONLY_SYSTEM_PROPERTIES;
      assert readOnly == ReadOnly(schema, name);
      if readOnly {
        stripped := stripped + {name};
      } else {
        writable := writable[name := properties[name]];
      }
    }
  }

  // ----- Undoing an update -----

  /** The captured records that have something to write back. */
  function Needed(schema: seq<SchemaEntry>, originals: map<RecordId, Values>): set<RecordId> {
    set id | id in originals && Writable(schema, originals[id]) != map[]
  }

  /** The portal with the captured writable values of the records in `done` put back. */
  function Restore(portal: Portal, schema: seq<SchemaEntry>, originals: map<RecordId, Values>, done: set<RecordId>): Portal {
    map id | id in portal ::
      if id in done && id in originals then Patch(portal[id], Writable(schema, originals[id])) else portal[id]
  }

  lemma RestoreNone(portal: Portal, schema: seq<SchemaEntry>, originals: map<RecordId, Values>)
    ensures Restore(portal, schema, originals, {}) == portal
  {
  }

  lemma RestoreOne(portal: Portal, schema: seq<SchemaEntry>, originals: map<RecordId, Values>, done: set<RecordId>, id: RecordId)
    requires id in portal && id in originals && id !in done
    ensures var p := Restore(portal, schema, originals, done);
            p[id := Patch(p[id], Writable(schema, originals[id]))] == Restore(portal, schema, originals, done + {id})
  {
  }

  /** One attempt: `acked` are the records whose update call succeeded; a raise ends the attempt early. */
  ghost predicate UndoAttempt(before: Portal, schema: seq<SchemaEntry>, originals: map<RecordId, Values>,
                              acked: set<RecordId>, after: Portal, succeeded: bool) {
    && acked <= Needed(schema, originals) * before.Keys
    && after == Restore(before, schema, originals, acked)
    && (succeeded ==> originals != map[] && acked == Needed(schema, originals))
  }

  lemma NeededNext(schema: seq<SchemaEntry>, originals: map<RecordId, Values>, todo: set<RecordId>, id: RecordId)
    requires id in todo && todo <= originals.Keys
    ensures Needed(schema, originals) - (todo - {id})
         == Needed(schema, originals) - todo + if Writable(schema, originals[id]) != map[] then {id} else {}
  {
  }

  method UndoUpdate(crm: Crm, schema: seq<SchemaEntry>, originals: map<RecordId, Values>)
    returns (succeeded: bool, raised: bool, acked: set<RecordId>)
    modifies crm
    ensures UndoAttempt(old(crm.portal), schema, originals, acked, crm.portal, succeeded)
    ensures !succeeded && !raised && originals != map[] ==> acked < Needed(schema, originals)
    ensures raised ==> !succeeded
  {
    acked, raised := {}, false;
    RestoreNone(crm.portal, schema, originals);
    if originals == map[] {
      return false, false, acked;
    }
    var failures: set<RecordId> := {};
    var todo := originals.Keys;
    while todo != {}
      invariant todo <= originals.Keys
      invariant acked + failures == Needed(schema, originals) - todo && acked !! failures && (acked + failures) !! todo
      invariant acked <= old(crm.portal).Keys
      invariant crm.portal == Restore(old(crm.portal), schema, originals, acked)
      decreases todo
    {
      var id :| id in todo;
      NeededNext(schema, originals, todo, id);
      todo := todo - {id};
      var writable, stripped := FilterWritableProperties(schema, originals[id]);
      if writable != map[] {
        var reply := crm.UpdateObject(id, writable);
        match reply {
          case Raised => return false, true, acked;
          case Error(_) => failures := failures + {id};
          case Done =>
            RestoreOne(old(crm.portal), schema, originals, acked, id);
            acked := acked + {id};
        }
      }
    }
    succeeded := failures == {};
  }

  // ----- Convergence over any sequence of attempts -----

  /** The undo snapshot of one action as attempts come and go: `_handle_undo` deletes it only
      after an attempt that succeeded. */
  datatype UndoState = UndoState(portal: Portal, snapshot: Option<map<RecordId, Values>>)

  ghost predicate HandleUndo(s: UndoState, schema: seq<SchemaEntry>, acked: set<RecordId>, succeeded: bool, s': UndoState) {
    match s.snapshot
    case None => s' == s
    case Some(originals) =>
      && UndoAttempt(s.portal, schema, originals, acked, s'.portal, succeeded)
      && s'.snapshot == if succeeded then None else s.snapshot
  }

  datatype Try = Try(acked: set<RecordId>, succeeded: bool)

  /** `states[i]` to `states[i + 1]` is the `i`th attempt; nobody else writes. */
  ghost predicate Attempts(schema: seq<SchemaEntry>, states: seq<UndoState>, tries: seq<Try>) {
    && |states| == |tries| + 1
    && forall i :: 0 <= i < |tries| ==> HandleUndo(states[i], schema, tries[i].acked, tries[i].succeeded, states[i + 1])
  }

  /** Every captured writable value is in place. */
  ghost predicate FullyRestored(portal: Portal, schema: seq<SchemaEntry>, originals: map<RecordId, Values>) {
    forall id <- Needed(schema, originals) ::
      id in portal && forall k <- Writable(schema, originals[id]) :: Lookup(portal[id], k) == Render(originals[id][k])
  }

  lemma PatchTwice(r: Record, c: Values)
    ensures Patch(Patch(r, c), c) == Patch(r, c)
  {
    SameRecord(Patch(Patch(r, c), c), Patch(r, c));
  }

  lemma RestoreMore(portal: Portal, schema: seq<SchemaEntry>, originals: map<RecordId, Values>, a: set<RecordId>, b: set<RecordId>)
    ensures Restore(Restore(portal, schema, originals, a), schema, originals, b) == Restore(portal, schema, originals, a + b)
  {
    forall id | id in portal && id in originals
      ensures Patch(Patch(portal[id], Writable(schema, originals[id])), Writable(schema, originals[id]))
           == Patch(portal[id], Writable(schema, originals[id]))
    {
      PatchTwice(portal[id], Writable(schema, originals[id]));
    }
  }

  /** Attempts only ever add restored records; the snapshot goes exactly when one of them succeeds,
      and then every captured writable value is back. A failed attempt leaves it whole for the next. */
  lemma {:induction false} UndoConverges(schema: seq<SchemaEntry>, states: seq<UndoState>, tries: seq<Try>,
                                         originals: map<RecordId, Values>)
    requires Attempts(schema, states, tries) && states[0].snapshot == Some(originals)
    ensures states[|tries|].snapshot == None <==> exists i :: 0 <= i < |tries| && tries[i].succeeded
    ensures states[|tries|].snapshot in {None, Some(originals)}
    ensures exists done: set<RecordId> :: done <= Needed(schema, originals)
              && states[|tries|].portal == Restore(states[0].portal, schema, originals, done)
    ensures states[|tries|].snapshot == None ==>
              && FullyRestored(states[|tries|].portal, schema, originals)
              && states[|tries|].portal == Restore(states[0].portal, schema, originals, Needed(schema, originals))
    decreases |tries|
  {
    var n := |tries|;
    if n == 0 {
      assert states[0].portal == Restore(states[0].portal, schema, originals, {});
    } else {
      UndoConverges(schema, states[..n], tries[..n - 1], originals);
      var done: set<RecordId> :| done <= Needed(schema, originals)
        && states[n - 1].portal == Restore(states[0].portal, schema, originals, done);
      assert HandleUndo(states[n - 1], schema, tries[n - 1].acked, tries[n - 1].succeeded, states[n]);
      assert forall i :: 0 <= i < n - 1 ==> tries[..n - 1][i] == tries[i];
      if states[n - 1].snapshot.Some? {
        var acked := tries[n - 1].acked;
        RestoreMore(states[0].portal, schema, originals, done, acked);
        if tries[n - 1].succeeded {
          assert done + acked == Needed(schema, originals);
        }
      }
    }
  }

  // ----- Which properties come back -----

  /** No cached entry of this name carries metadata. */
  ghost predicate NoMetadata(schema: seq<SchemaEntry>, k: Prop) {
    forall e <- schema :: e.name == k && k != "" ==> e.readOnlyValue.None?
  }

  /** The last cached entry of this name that carries metadata says so. */
  ghost predicate LastSays(schema: seq<SchemaEntry>, k: Prop, readOnly: bool) {
    k != "" && exists i :: 0 <= i < |schema| && schema[i] == SchemaEntry(k, Some(readOnly))
                           && forall j :: i < j < |schema| && schema[j].name == k ==> schema[j].readOnlyValue.None?
  }

  /** HubSpot takes the property back: its last metadata says so, or it has none and is no system field. */
  ghost predicate Restorable(schema: seq<SchemaEntry>, k: Prop) {
    || LastSays(schema, k, false)
    || (NoMetadata(schema, k)
        && k !in {"hs_object_id", "createdate", "lastmodifieddate", "hs_createdate", "hs_lastmodifieddate",
                  "hs_created_by_user_id", "hs_updated_by_user_id"})
  }

  lemma {:induction false} MetadataIs(schema: seq<SchemaEntry>, k: Prop)
    ensures Metadata(schema, k).None? <==> NoMetadata(schema, k)
    ensures forall flag :: Metadata(schema, k) == Some(flag) <==> LastSays(schema, k, flag)
    decreases |schema|
  {
    if schema != [] {
      var n := |schema| - 1;
      var before, last := schema[..n], schema[n];
      MetadataIs(before, k);
      assert schema == before + [last];
      if last.name == k && k != "" && last.readOnlyValue.Some? {
        assert last in schema && schema[n] == SchemaEntry(k, last.readOnlyValue);
      } else {
        forall flag
          ensures LastSays(before, k, flag) <==> LastSays(schema, k, flag)
        {
          LastSaysMore(before, last, k, flag);
        }
      }
    }
  }

  lemma LastSaysMore(before: seq<SchemaEntry>, last: SchemaEntry, k: Prop, flag: bool)
    requires last.name != k || k == "" || last.readOnlyValue.None?
    ensures LastSays(before, k, flag) <==> LastSays(before + [last], k, flag)
  {
    var schema := before + [last];
    if LastSays(before, k, flag) {
      var i :| 0 <= i < |before| && before[i] == SchemaEntry(k, Some(flag))
        && forall j :: i < j < |before| && before[j].name == k ==> before[j].readOnlyValue.None?;
      assert schema[i] == before[i];
    }
    if LastSays(schema, k, flag) {
      var i :| 0 <= i < |schema| && schema[i] == SchemaEntry(k, Some(flag))
        && forall j :: i < j < |schema| && schema[j].name == k ==> schema[j].readOnlyValue.None?;
      assert i < |before| && before[i] == schema[i];
      assert forall j :: i < j < |before| ==> before[j] == schema[j];
    }
  }

  /** What an attempt does to one captured property of one record that was there: on success every
      captured value is back that HubSpot takes, and no attempt touches another. */
  lemma AttemptRestores(before: Portal, schema: seq<SchemaEntry>, originals: map<RecordId, Values>,
                        acked: set<RecordId>, after: Portal, succeeded: bool, id: RecordId, k: Prop)
    requires UndoAttempt(before, schema, originals, acked, after, succeeded)
    requires id in originals && k in originals[id]
    ensures succeeded && Restorable(schema, k) ==> id in after && Lookup(after[id], k) == Get(originals[id], k)
    ensures !Restorable(schema, k) && id in before ==> id in after && Lookup(after[id], k) == Lookup(before[id], k)
  {
    MetadataIs(schema, k);
    if Restorable(schema, k) {
      assert k in Writable(schema, originals[id]);
      assert succeeded ==> id in Needed(schema, originals);
    }
  }

  /** And no attempt touches a property that was not captured, or another record. */
  lemma AttemptSpares(before: Portal, schema: seq<SchemaEntry>, originals: map<RecordId, Values>,
                      acked: set<RecordId>, after: Portal, succeeded: bool, id: RecordId, k: Prop)
    requires UndoAttempt(before, schema, originals, acked, after, succeeded)
    requires id in before && (id in originals ==> k !in originals[id])
    ensures id in after && Lookup(after[id], k) == Lookup(before[id], k)
  {
  }

  // ----- Undoing a create -----

  /** How HubSpot answers a delete. Undo sees only the text of a refusal, not its HTTP status; a raise
      ends the attempt. */
  datatype DeleteReply = Deleted | Refused(status: int, text: string) | Raised

  function LowerChar(c: char): char {
    if 'A' <= c <= 'Z' then c - 'A' + 'a' else c
  }

  function Lower(text: string): string {
    seq(|text|, i requires 0 <= i < |text| => LowerChar(text[i]))
  }

  /** The error texts that undo takes to mean "already gone". */
  predicate ReadsAsGone(text: string) {
    Contains(text, "404") || Contains(Lower(text), "not found")
  }

  predicate Counts(reply: DeleteReply) { reply.Deleted? || (reply.Refused? && ReadsAsGone(reply.text)) }

  /** The `i`th call was made and answered. */
  predicate Reached(replies: seq<DeleteReply>, i: nat)
    requires i < |replies|
  {
    forall j :: 0 <= j <= i ==> !replies[j].Raised?
  }

  /** The records whose delete went through. */
  function DeletedIds(ids: seq<RecordId>, replies: seq<DeleteReply>): set<RecordId>
    requires |replies| == |ids|
  {
    set i | 0 <= i < |ids| && Reached(replies, i) && replies[i].Deleted? :: ids[i]
  }

  predicate CreateSucceeds(ids: seq<RecordId>, replies: seq<DeleteReply>) {
    ids != [] && forall i :: 0 <= i < |replies| ==> Counts(replies[i])
  }

  method UndoCreate(portal: Portal, createdIds: seq<RecordId>, replies: seq<DeleteReply>)
    returns (succeeded: bool, after: Portal)
    requires |replies| == |createdIds|
    ensures after == portal - DeletedIds(createdIds, replies)
    ensures succeeded <==> CreateSucceeds(createdIds, replies)
  {
    after := portal;
    if createdIds == [] {
      return false, after;
    }
    var failures: seq<RecordId> := [];
    for i := 0 to |createdIds|
      invariant forall j :: 0 <= j < i ==> !replies[j].Raised?
      invariant after == portal - DeletedBefore(createdIds, replies, i)
      invariant failures == [] <==> forall j :: 0 <= j < i ==> Counts(replies[j])
    {
      match replies[i] {
        case Deleted => after := after - {createdIds[i]};
        case Refused(_, text) =>
          if !ReadsAsGone(text) {
            failures := failures + [createdIds[i]];
          }
        case Raised =>
          assert DeletedIds(createdIds, replies) == DeletedBefore(createdIds, replies, i);
          return false, after;
      }
    }
    succeeded := failures == [];
  }

  /** What the calls before the `i`th deleted. */
  function DeletedBefore(ids: seq<RecordId>, replies: seq<DeleteReply>, i: nat): set<RecordId>
    requires |replies| == |ids| && i <= |ids|
  {
    set j | 0 <= j < i && Reached(replies, j) && replies[j].Deleted? :: ids[j]
  }

  /** HubSpot deletes a record that is there, and answers 404 exactly when it is not. */
  ghost predicate HonestDeletes(portal: Portal, ids: seq<RecordId>, replies: seq<DeleteReply>) {
    && |replies| == |ids|
    && forall i :: 0 <= i < |ids| && Reached(replies, i) ==>
         var there := ids[i] in portal && ids[i] !in DeletedBefore(ids, replies, i);
         if replies[i].Deleted? then there else replies[i].status == 404 <==> !there
  }

  /** The last answer about a record was an error of another kind whose text reads as "gone". */
  predicate Misread(ids: seq<RecordId>, replies: seq<DeleteReply>, i: nat)
    requires |replies| == |ids| && i < |ids|
  {
    && replies[i].Refused? && replies[i].status != 404 && ReadsAsGone(replies[i].text)
    && forall j :: i < j < |ids| ==> ids[j] != ids[i]
  }

  lemma {:induction false} LastAbout(ids: seq<RecordId>, id: RecordId) returns (k: nat)
    requires id in ids
    ensures k < |ids| && ids[k] == id && forall j :: k < j < |ids| ==> ids[j] != id
    decreases |ids|
  {
    k := |ids| - 1;
    if ids[k] != id { k := LastAbout(ids[..k], id); }
  }

  /** A reported success has really removed every created record if and only if no error of another
      status was read as "gone". */
  lemma CreateUndoneIff(portal: Portal, ids: seq<RecordId>, replies: seq<DeleteReply>)
    requires HonestDeletes(portal, ids, replies) && CreateSucceeds(ids, replies)
    ensures (forall id <- ids :: id !in portal - DeletedIds(ids, replies))
       <==> !exists i :: 0 <= i < |ids| && Misread(ids, replies, i)
  {
    var after := portal - DeletedIds(ids, replies);
    assert forall i :: 0 <= i < |ids| ==> Counts(replies[i]) && Reached(replies, i);
    forall i | 0 <= i < |ids| && Misread(ids, replies, i)
      ensures ids[i] in ids && ids[i] in after
    {
      assert ids[i] in portal && ids[i] !in DeletedBefore(ids, replies, i);
    }
    forall id <- ids | id in after
      ensures exists i :: 0 <= i < |ids| && Misread(ids, replies, i)
    {
      var k := LastAbout(ids, id);
      assert id !in DeletedBefore(ids, replies, k);
      assert Misread(ids, replies, k);
    }
  }

  /** The text match is loose: an error about a locked record whose id holds "404" passes for gone. */
  lemma LockedRecordReadsAsGone(portal: Portal)
    requires "1404" in portal
    ensures var ids, replies := ["1404"], [Refused(423, "record 1404 is locked")];
            && HonestDeletes(portal, ids, replies) && CreateSucceeds(ids, replies)
            && "1404" in portal - DeletedIds(ids, replies)
  {
    var text := "record 1404 is locked";
    assert text[8..][..3] == "404";
  }

  /** `text` holds `part` from some place on, letter by letter. */
  ghost predicate Holds(text: string, part: string) {
    exists i: nat :: HoldsAt(text, part, i)
  }

  ghost predicate HoldsAt(text: string, part: string, i: nat) {
    i + |part| <= |text| && forall j :: 0 <= j < |part| ==> text[i + j] == part[j]
  }

  lemma ContainsIsHolds(text: string, part: string)
    ensures Contains(text, part) <==> Holds(text, part)
  {
    if Contains(text, part) {
      var i: nat :| i <= |text| - |part| && text[i..][..|part|] == part;
      assert forall j :: 0 <= j < |part| ==> text[i + j] == text[i..][..|part|][j];
      assert HoldsAt(text, part, i);
    }
    if Holds(text, part) {
      var i: nat :| HoldsAt(text, part, i);
      assert text[i..][..|part|] == part;
    }
  }

  /** An undo of a create succeeds if and only if there are ids and each one was deleted, or refused with a
      text that holds 404, or "not found" in any case. */
  lemma CreateSucceedsIff(ids: seq<RecordId>, replies: seq<DeleteReply>)
    ensures CreateSucceeds(ids, replies) <==>
              ids != [] && forall i :: 0 <= i < |replies| ==>
                replies[i].Deleted?
                || (replies[i].Refused? && (Holds(replies[i].text, "404") || Holds(Lower(replies[i].text), "not found")))
  {
    forall i | 0 <= i < |replies| && replies[i].Refused?
      ensures Counts(replies[i]) <==> Holds(replies[i].text, "404") || Holds(Lower(replies[i].text), "not found")
    {
      ContainsIsHolds(replies[i].text, "404");
      ContainsIsHolds(Lower(replies[i].text), "not found");
    }
  }

  /** An instance: "Object Not Found" counts. */
  lemma NotFoundCounts(status: int)
    ensures CreateSucceeds(["7"], [Refused(status, "Object Not Found")])
  {
    var text := Lower("Object Not Found");
    assert text[7] == 'n' && text[8] == 'o' && text[9] == 't' && text[10] == ' ' && text[11] == 'f' && text[12] == 'o'
        && text[13] == 'u' && text[14] == 'n' && text[15] == 'd';
    assert HoldsAt(text, "not found", 7);
    CreateSucceedsIff(["7"], [Refused(status, "Object Not Found")]);
  }

  /** The match is also too narrow: with every created record gone already, undo succeeds exactly if
      each of the 404 texts happens to say so. */
  lemma GoneSucceedsIff(portal: Portal, ids: seq<RecordId>, replies: seq<DeleteReply>)
    requires HonestDeletes(portal, ids, replies) && ids != [] && forall id <- ids :: id !in portal
    ensures CreateSucceeds(ids, replies) <==>
              forall i :: 0 <= i < |ids| ==> replies[i].Refused? && replies[i].status == 404 && ReadsAsGone(replies[i].text)
  {
    if CreateSucceeds(ids, replies) {
      forall i | 0 <= i < |ids|
        ensures replies[i].Refused? && replies[i].status == 404
      {
        assert Counts(replies[i]);
        assert Reached(replies, i) by { assert forall j :: 0 <= j <= i ==> Counts(replies[j]); }
        assert ids[i] in ids;
      }
    }
  }

  // ----- Any sequence of attempts on a create -----

  datatype CreateState = CreateState(portal: Portal, snapshot: Option<seq<RecordId>>)

  ghost predicate HandleUndoCreate(s: CreateState, replies: seq<DeleteReply>, s': CreateState) {
    match s.snapshot
    case None => s' == s
    case Some(ids) =>
      && |replies| == |ids|
      && s'.portal == s.portal - DeletedIds(ids, replies)
      && s'.snapshot == if CreateSucceeds(ids, replies) then None else s.snapshot
  }

  ghost predicate CreateAttempts(states: seq<CreateState>, tries: seq<seq<DeleteReply>>) {
    && |states| == |tries| + 1
    && forall i :: 0 <= i < |tries| ==> HandleUndoCreate(states[i], tries[i], states[i + 1])
  }

  /** Only created records ever go, and they stay gone; the snapshot goes exactly with the first attempt
      that succeeds. */
  lemma {:induction false} CreateUndoConverges(states: seq<CreateState>, tries: seq<seq<DeleteReply>>, ids: seq<RecordId>)
    requires CreateAttempts(states, tries) && states[0].snapshot == Some(ids)
    ensures states[|tries|].snapshot in {None, Some(ids)}
    ensures states[|tries|].snapshot == None <==> exists i :: 0 <= i < |tries| && CreateSucceeds(ids, tries[i])
    ensures forall k :: 0 <= k <= |tries| ==> Shrunk(states[k].portal, states[|tries|].portal, ids)
    decreases |tries|
  {
    var n := |tries|;
    if n > 0 {
      CreateUndoConverges(states[..n], tries[..n - 1], ids);
      assert forall i :: 0 <= i < n - 1 ==> tries[..n - 1][i] == tries[i];
      assert HandleUndoCreate(states[n - 1], tries[n - 1], states[n]);
      assert Shrunk(states[n - 1].portal, states[n].portal, ids);
      forall k | 0 <= k <= n
        ensures Shrunk(states[k].portal, states[n].portal, ids)
      {
        if k < n { assert Shrunk(states[..n][k].portal, states[n - 1].portal, ids); }
      }
    }
  }

  /** The portal has lost some of these records, and nothing else has happened to it. */
  ghost predicate Shrunk(before: Portal, after: Portal, ids: seq<RecordId>) {
    && (forall id <- after :: id in before && after[id] == before[id])
    && forall id <- before :: id in after || id in ids
  }

  /** A retry converges: wherever earlier attempts stopped, an attempt in which every record that is
      still there is deleted succeeds if each 404 text reads as such, and none of them is left. */
  lemma CreateRetryConverges(portal: Portal, ids: seq<RecordId>, replies: seq<DeleteReply>)
    requires HonestDeletes(portal, ids, replies) && ids != []
    requires forall i :: 0 <= i < |ids| ==>
      replies[i].Deleted? || (replies[i].Refused? && replies[i].status == 404 && ReadsAsGone(replies[i].text))
    ensures CreateSucceeds(ids, replies)
    ensures forall id <- ids :: id !in portal - DeletedIds(ids, replies)
  {
    CreateUndoneIff(portal, ids, replies);
  }

  // ----- Pattern write, then undo -----

  /** Undo would put back more or less than the rule changed: a changed field it cannot write back
      must not really have changed, and any other captured field must not have drifted. */
  predicate Covers(schema: seq<SchemaEntry>, r: Record, e: Pattern.Entry) {
    var back := Writable(schema, e.preImage);
    && (forall k <- e.changes :: k !in back ==> Render(e.changes[k]) == Lookup(r, k))
    && (forall k <- back :: k !in e.changes ==> Render(back[k]) == Lookup(r, k))
  }

  lemma PatchThenBack(schema: seq<SchemaEntry>, r: Record, e: Pattern.Entry)
    requires Pattern.StillAsCaptured(r, e)
    ensures Patch(Patch(r, e.changes), Writable(schema, e.preImage)) == r <==> Covers(schema, r, e)
  {
    var back := Writable(schema, e.preImage);
    var r' := Patch(Patch(r, e.changes), back);
    if Covers(schema, r, e) {
      forall k
        ensures Lookup(r', k) == Lookup(r, k)
      {
        if k in back && k in e.changes { assert Get(e.preImage, k) == Lookup(r, k); }
      }
      SameRecord(r', r);
    } else if exists k <- e.changes :: k !in back && Render(e.changes[k]) != Lookup(r, k) {
      var k :| k in e.changes && k !in back && Render(e.changes[k]) != Lookup(r, k);
      assert Lookup(r', k) != Lookup(r, k);
    } else {
      var k :| k in back && k !in e.changes && Render(back[k]) != Lookup(r, k);
      assert Lookup(r', k) != Lookup(r, k);
    }
  }

  /** Every applied entry can be put back. */
  ghost predicate AllCovered(portal: Portal, schema: seq<SchemaEntry>, matched: seq<Pattern.Entry>, b: Pattern.Batch) {
    forall e <- matched :: e.id in b.applied ==> e.id in portal && Covers(schema, portal[e.id], e)
  }

  /** Compare-and-set, then undo, is the identity on the whole portal exactly when every applied
      entry is covered: nothing else is touched, whatever the batch skipped or failed on. */
  lemma PatternRoundTrip(portal: Portal, schema: seq<SchemaEntry>, matched: seq<Pattern.Entry>, turns: seq<Pattern.Turn>)
    requires |turns| == |matched| && Pattern.DistinctIds(matched) && Pattern.NoOtherWriter(turns)
    ensures var b := Pattern.Run(portal, matched, turns);
            (Restore(b.portal, schema, b.originals, Needed(schema, b.originals)) == portal
             <==> AllCovered(portal, schema, matched, b))
  {
    var b := Pattern.Run(portal, matched, turns);
    Pattern.RunExplained(portal, matched, turns);
    forall e <- matched | e.id in b.applied
      ensures UndoneIffCovered(portal, schema, b, e)
    {
      AppliedUndone(portal, schema, b, e);
    }
    RoundTripIff(portal, schema, matched, b);
  }

  lemma RoundTripIff(portal: Portal, schema: seq<SchemaEntry>, matched: seq<Pattern.Entry>, b: Pattern.Batch)
    requires Pattern.Explains(portal, matched, b)
    requires forall e <- matched :: e.id in b.applied ==> UndoneIffCovered(portal, schema, b, e)
    ensures Restore(b.portal, schema, b.originals, Needed(schema, b.originals)) == portal
       <==> AllCovered(portal, schema, matched, b)
  {
    var back := Restore(b.portal, schema, b.originals, Needed(schema, b.originals));
    assert back.Keys == portal.Keys;
    if AllCovered(portal, schema, matched, b) {
      forall id <- portal
        ensures back[id] == portal[id]
      {
        if id in b.applied {
          var e := EntryWithId(matched, id);
          assert UndoneIffCovered(portal, schema, b, e);
        }
      }
    }
  }

  ghost predicate UndoneIffCovered(portal: Portal, schema: seq<SchemaEntry>, b: Pattern.Batch, e: Pattern.Entry) {
    var back := Restore(b.portal, schema, b.originals, Needed(schema, b.originals));
    && e.id in portal && e.id in back
    && (back[e.id] == portal[e.id] <==> Covers(schema, portal[e.id], e))
  }

  lemma AppliedUndone(portal: Portal, schema: seq<SchemaEntry>, b: Pattern.Batch, e: Pattern.Entry)
    requires Pattern.EntryExplained(portal, b, e) && e.id in b.applied
    ensures UndoneIffCovered(portal, schema, b, e)
  {
    PatchThenBack(schema, portal[e.id], e);
    RestoredRecord(schema, b, e.id);
  }

  lemma EntryWithId(matched: seq<Pattern.Entry>, id: RecordId) returns (e: Pattern.Entry)
    requires id in Pattern.Ids(matched)
    ensures e in matched && e.id == id
  {
    var i :| 0 <= i < |matched| && Pattern.Ids(matched)[i] == id;
    e := matched[i];
  }

  /** Restoring a record whose captured values are all read-only leaves it as it is. */
  lemma RestoredRecord(schema: seq<SchemaEntry>, b: Pattern.Batch, id: RecordId)
    requires id in b.originals && id in b.portal
    ensures Restore(b.portal, schema, b.originals, Needed(schema, b.originals))[id]
         == Patch(b.portal[id], Writable(schema, b.originals[id]))
  {
    if Writable(schema, b.originals[id]) == map[] {
      SameRecord(Patch(b.portal[id], map[]), b.portal[id]);
    }
  }
}

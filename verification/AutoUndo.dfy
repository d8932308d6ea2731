/** What the AUTO tier means for an update, bulk or single: every record distinct and captured, so that
    executing and then undoing leaves the portal as it was. */
module AutoUndo {
  import opened Wrappers
  import opened Records
  import opened Tools
  import opened Policy
  import opened Effects
  import Pattern
  import Undo

  /** A record of the shape the tool path insists on: an object with a `properties` object. */
  type ShapedRec = r: Rec | r.Rec? && r.properties.Some?
    witness Rec("1", Some(map[]))

  /** HubSpot answers a read with the record asked for, every property asked for (null when unset),
      and the values it holds. */
  ghost predicate Honest(portal: Portal, r: ShapedRec, read: Option<GetReply>)
  {
    read.Some? ==>
      && read.value.id == r.id
      && r.id in portal
      && r.properties.value.Keys <= read.value.properties.Keys
      && forall k <- read.value.properties :: Render(read.value.properties[k]) == Lookup(portal[r.id], k)
  }

  ghost predicate HonestReads(portal: Portal, records: seq<ShapedRec>, replies: seq<Option<GetReply>>) {
    && |replies| == |records|
    && forall i :: 0 <= i < |records| ==> Honest(portal, records[i], replies[i])
  }

  /** The pending write that the bulk preview produces. */
  function BulkWrite(objectType: string, records: seq<ShapedRec>, originals: map<RecordId, Values>): Write {
    Write(BULK_UPDATE, Medium, Update, |records|, originals, BulkCall(objectType, records).payload)
  }

  function BulkCall(objectType: string, records: seq<ShapedRec>): Call {
    Call(BULK_UPDATE, "", {}, false, Payload(Some(objectType), None, None, None, Some(records), None, None, None, None))
  }

  /** It is what `handle_tool` stages of the call. */
  lemma BulkIsStaged(objectType: string, records: seq<ShapedRec>, originals: map<RecordId, Values>)
    ensures BulkWrite(objectType, records, originals) == WriteOf(BulkCall(objectType, records), originals)
    ensures KindOf(BULK_UPDATE).BulkUpdate? && IsWrite(BulkCall(objectType, records))
  {
    ToolKinds();
    IntentOfKind(BULK_UPDATE, "");
    ObjectToolsWrite(BULK_UPDATE, "", Some(objectType), {}, false);
    UpdateIsNoDelete(BULK_UPDATE, "", Some(objectType), {});
  }

  function IdSet(records: seq<ShapedRec>): set<RecordId> {
    set r | r in records :: r.id
  }

  ghost predicate DistinctIds(records: seq<ShapedRec>) {
    forall i, j :: 0 <= i < j < |records| ==> records[i].id != records[j].id
  }

  // ----- Pigeonhole -----

  lemma {:induction false} CapturedAreTargets(portal: Portal, records: seq<ShapedRec>, replies: seq<Option<GetReply>>)
    requires HonestReads(portal, records, replies)
    ensures Captured(records, replies).Keys <= IdSet(records)
    decreases |records|
  {
    if records != [] {
      var n := |records| - 1;
      PrefixHonest(portal, records, replies);
      CapturedAreTargets(portal, records[..n], replies[..n]);
      assert records == records[..n] + [records[n]];
      assert Honest(portal, records[n], replies[n]);
    }
  }

  lemma PrefixHonest(portal: Portal, records: seq<ShapedRec>, replies: seq<Option<GetReply>>)
    requires HonestReads(portal, records, replies) && records != []
    ensures HonestReads(portal, records[..|records| - 1], replies[..|records| - 1])
  {
  }

  lemma {:induction false} AsManyIdsAsRecords(records: seq<ShapedRec>)
    ensures |IdSet(records)| <= |records|
    ensures |IdSet(records)| == |records| ==> DistinctIds(records)
    decreases |records|
  {
    if records != [] {
      var n := |records| - 1;
      var before := records[..n];
      AsManyIdsAsRecords(before);
      IdSetStep(records);
      if records[n].id !in IdSet(before) && DistinctIds(before) { DistinctMore(before, records[n]); }
      assert records == before + [records[n]];
    }
  }

  lemma DistinctMore(records: seq<ShapedRec>, r: ShapedRec)
    requires DistinctIds(records) && r.id !in IdSet(records)
    ensures DistinctIds(records + [r])
  {
    forall i | 0 <= i < |records|
      ensures records[i].id != r.id
    {
      assert records[i] in records;
    }
  }

  /** AUTO on a bulk update: the targets are pairwise distinct and each one's pre-image is captured. */
  lemma AutoCapturesAll(portal: Portal, objectType: string, records: seq<ShapedRec>, replies: seq<Option<GetReply>>, policy: ApprovalPolicy)
    requires HonestReads(portal, records, replies) && records != []
    requires ClassifyWrite(BulkWrite(objectType, records, Captured(records, replies)), policy) == AUTO
    ensures DistinctIds(records)
    ensures Captured(records, replies).Keys == IdSet(records)
  {
    var originals := Captured(records, replies);
    CapturedAreTargets(portal, records, replies);
    AsManyIdsAsRecords(records);
    SubsetSize(originals.Keys, IdSet(records));
  }

  lemma {:induction false} SubsetSize<T>(a: set<T>, b: set<T>)
    requires a <= b
    ensures |a| <= |b|
    ensures |a| == |b| ==> a == b
  {
    assert b == a + (b - a);
    assert |b| == |a| + |b - a|;
  }

  // ----- Execute, then undo -----

  lemma IdSetStep(records: seq<ShapedRec>)
    requires records != []
    ensures IdSet(records) == IdSet(records[..|records| - 1]) + {records[|records| - 1].id}
  {
    assert records == records[..|records| - 1] + [records[|records| - 1]];
  }

  /** With distinct targets, what was captured for a record is its own read. */
  lemma {:induction false} CapturedRead(portal: Portal, records: seq<ShapedRec>, replies: seq<Option<GetReply>>, i: nat)
    requires HonestReads(portal, records, replies) && DistinctIds(records) && i < |records|
    requires records[i].id in Captured(records, replies)
    ensures replies[i].Some? && Captured(records, replies)[records[i].id] == replies[i].value.properties
    decreases |records|
  {
    var n := |records| - 1;
    PrefixHonest(portal, records, replies);
    assert Honest(portal, records[n], replies[n]);
    if i < n {
      assert records[..n][i] == records[i];
      CapturedRead(portal, records[..n], replies[..n], i);
    } else {
      CapturedAreTargets(portal, records[..n], replies[..n]);
      assert records[n].id !in IdSet(records[..n]) by {
        forall r <- records[..n]
          ensures r.id != records[n].id
        {
          var j :| 0 <= j < n && records[j] == r;
        }
      }
    }
  }

  /** Nothing that HubSpot would not take back was changed. */
  predicate OnlyWritableChanged(portal: Portal, schema: seq<Undo.SchemaEntry>, r: ShapedRec)
    requires r.id in portal
  {
    forall k <- r.properties.value :: Undo.ReadOnly(schema, k) ==> Render(r.properties.value[k]) == Lookup(portal[r.id], k)
  }

  lemma AutoRecordBack(portal: Portal, schema: seq<Undo.SchemaEntry>, r: ShapedRec, read: Option<GetReply>)
    requires read.Some? && Honest(portal, r, read)
    ensures var back := Undo.Writable(schema, read.value.properties);
            Patch(Patch(portal[r.id], r.properties.value), back) == portal[r.id]
            <==> OnlyWritableChanged(portal, schema, r)
  {
    var e := Pattern.Entry(r.id, read.value.properties, r.properties.value);
    assert Pattern.StillAsCaptured(portal[r.id], e);
    Undo.PatchThenBack(schema, portal[r.id], e);
    assert Undo.Covers(schema, portal[r.id], e) <==> OnlyWritableChanged(portal, schema, r);
  }

  /** A captured record is back, after execute and undo, exactly when only writable properties of it
      changed, if it changed at all. */
  ghost predicate BackIff(portal: Portal, schema: seq<Undo.SchemaEntry>, back: Portal, r: ShapedRec, landed: bool) {
    && r.id in portal && r.id in back
    && (back[r.id] == portal[r.id] <==> (landed ==> OnlyWritableChanged(portal, schema, r)))
  }

  /** The bulk update, whatever part of it landed, and then an undo with every call succeeding. */
  function ExecuteThenUndo(portal: Portal, schema: seq<Undo.SchemaEntry>, records: seq<ShapedRec>, lands: seq<bool>,
                           originals: map<RecordId, Values>): Portal {
    Undo.Restore(BulkApply(portal, records, lands), schema, originals, Undo.Needed(schema, originals))
  }

  lemma RecordBack(portal: Portal, schema: seq<Undo.SchemaEntry>, records: seq<ShapedRec>, lands: seq<bool>,
                   replies: seq<Option<GetReply>>, i: nat)
    requires HonestReads(portal, records, replies) && DistinctIds(records) && i < |records|
    requires records[i].id in portal && records[i].id in Captured(records, replies)
    ensures var back := ExecuteThenUndo(portal, schema, records, lands, Captured(records, replies));
            BackIff(portal, schema, back, records[i], Answer(lands, i))
  {
    var r, read := records[i], replies[i];
    CapturedRead(portal, records, replies, i);
    assert Honest(portal, r, read);
    BulkRecord(portal, records, lands, i);
    RestoredOne(BulkApply(portal, records, lands), schema, Captured(records, replies), r.id);
    AutoRecordBack(portal, schema, r, read);
    UnchangedBack(portal, schema, r, read);
  }

  /** Writing back what was read changes nothing. */
  lemma UnchangedBack(portal: Portal, schema: seq<Undo.SchemaEntry>, r: ShapedRec, read: Option<GetReply>)
    requires read.Some? && Honest(portal, r, read)
    ensures Patch(portal[r.id], Undo.Writable(schema, read.value.properties)) == portal[r.id]
  {
    SameRecord(Patch(portal[r.id], Undo.Writable(schema, read.value.properties)), portal[r.id]);
  }

  lemma TargetsExist(portal: Portal, records: seq<ShapedRec>, replies: seq<Option<GetReply>>)
    requires HonestReads(portal, records, replies) && DistinctIds(records)
    requires IdSet(records) <= Captured(records, replies).Keys
    ensures forall r <- records :: r.id in portal
  {
    forall r <- records
      ensures r.id in portal
    {
      var i :| 0 <= i < |records| && records[i] == r;
      assert r.id in IdSet(records);
      CapturedRead(portal, records, replies, i);
      assert Honest(portal, records[i], replies[i]);
    }
  }

  /** No record that landed had a read-only property really changed. */
  ghost predicate LandedWritable(portal: Portal, schema: seq<Undo.SchemaEntry>, records: seq<ShapedRec>, lands: seq<bool>)
    requires forall r <- records :: r.id in portal
  {
    forall i :: 0 <= i < |records| && Answer(lands, i) ==> OnlyWritableChanged(portal, schema, records[i])
  }

  /** An AUTO bulk update, executed as far as it landed and undone with every call succeeding and no
      other writer, leaves the whole portal as it was, exactly when no read-only property of a landed
      record was really changed. */
  lemma AutoIsReversible(portal: Portal, schema: seq<Undo.SchemaEntry>, objectType: string, records: seq<ShapedRec>, lands: seq<bool>,
                         replies: seq<Option<GetReply>>, policy: ApprovalPolicy)
    requires HonestReads(portal, records, replies) && records != []
    requires ClassifyWrite(BulkWrite(objectType, records, Captured(records, replies)), policy) == AUTO
    ensures forall r <- records :: r.id in portal
    ensures ExecuteThenUndo(portal, schema, records, lands, Captured(records, replies)) == portal
       <==> LandedWritable(portal, schema, records, lands)
  {
    var originals := Captured(records, replies);
    AutoCapturesAll(portal, objectType, records, replies, policy);
    TargetsExist(portal, records, replies);
    var back := ExecuteThenUndo(portal, schema, records, lands, originals);
    forall i | 0 <= i < |records|
      ensures BackIff(portal, schema, back, records[i], Answer(lands, i))
    {
      assert records[i].id in IdSet(records);
      RecordBack(portal, schema, records, lands, replies, i);
    }
    forall id <- portal | id !in IdSet(records)
      ensures back[id] == portal[id]
    {
      BulkElsewhere(portal, records, lands, id);
    }
    AllBackIff(portal, schema, back, records, lands);
  }

  lemma AllBackIff(portal: Portal, schema: seq<Undo.SchemaEntry>, back: Portal, records: seq<ShapedRec>, lands: seq<bool>)
    requires forall r <- records :: r.id in portal
    requires forall i :: 0 <= i < |records| ==> BackIff(portal, schema, back, records[i], Answer(lands, i))
    requires back.Keys == portal.Keys
    requires forall id <- portal :: id !in IdSet(records) ==> back[id] == portal[id]
    ensures back == portal <==> LandedWritable(portal, schema, records, lands)
  {
    if LandedWritable(portal, schema, records, lands) {
      forall id <- portal
        ensures back[id] == portal[id]
      {
        if id in IdSet(records) {
          var i :| 0 <= i < |records| && records[i].id == id;
          assert BackIff(portal, schema, back, records[i], Answer(lands, i));
        }
      }
    } else {
      var i :| 0 <= i < |records| && Answer(lands, i) && !OnlyWritableChanged(portal, schema, records[i]);
      assert BackIff(portal, schema, back, records[i], Answer(lands, i));
    }
  }

  lemma RestoredOne(after: Portal, schema: seq<Undo.SchemaEntry>, originals: map<RecordId, Values>, id: RecordId)
    requires id in after && id in originals
    ensures Undo.Restore(after, schema, originals, Undo.Needed(schema, originals))[id]
         == Patch(after[id], Undo.Writable(schema, originals[id]))
  {
    if Undo.Writable(schema, originals[id]) == map[] {
      SameRecord(Patch(after[id], map[]), after[id]);
    }
  }

  /** Under a policy that lets at most a hundred records through unasked, as the shipped one does, an AUTO
      bulk update fits one chunk: it fails whole or not at all. */
  lemma AutoFailsWhole(objectType: string, records: seq<ShapedRec>, originals: map<RecordId, Values>, policy: ApprovalPolicy)
    requires policy.autoApplyMaxRecords <= BATCH_SIZE
    requires ClassifyWrite(BulkWrite(objectType, records, originals), policy) == AUTO
    ensures FailsWhole(BulkWrite(objectType, records, originals))
  {
    ToolKinds();
  }

  // ----- The single-record update -----

  /** The pending write that the preview of `hubspot_update_object` produces: at most one read. */
  function UpdateWrite(objectType: string, r: ShapedRec, read: Option<GetReply>): Write {
    Write(UPDATE_OBJECT, Medium, Update, 1,
          if read.Some? then map[read.value.id := read.value.properties] else map[], UpdateCall(objectType, r).payload)
  }

  function UpdateCall(objectType: string, r: ShapedRec): Call {
    Call(UPDATE_OBJECT, "", {}, false, Payload(Some(objectType), Some(r.id), None, r.properties, None, None, None, None, None))
  }

  lemma UpdateIsStaged(objectType: string, r: ShapedRec, read: Option<GetReply>)
    ensures UpdateWrite(objectType, r, read) == WriteOf(UpdateCall(objectType, r), UpdateWrite(objectType, r, read).originals)
    ensures KindOf(UPDATE_OBJECT).UpdateObject? && IsWrite(UpdateCall(objectType, r))
  {
    ToolKinds();
    IntentOfKind(UPDATE_OBJECT, "");
    ObjectToolsWrite(UPDATE_OBJECT, "", Some(objectType), {}, false);
    UpdateIsNoDelete(UPDATE_OBJECT, "", Some(objectType), {});
  }

  /** An AUTO single update that executed and was undone leaves the portal as it was, exactly when no
      read-only property of the record was really changed. */
  lemma AutoUpdateIsReversible(types: set<string>, portal: Portal, schema: seq<Undo.SchemaEntry>, objectType: string,
                               r: ShapedRec, read: Option<GetReply>, io: ExecIo, policy: ApprovalPolicy)
    requires Honest(portal, r, read)
    requires ClassifyWrite(UpdateWrite(objectType, r, read), policy) == AUTO
    requires Invoke(types, portal, UpdateWrite(objectType, r, read), io).ok
    ensures r.id in portal
    ensures var originals := UpdateWrite(objectType, r, read).originals;
            var after := Invoke(types, portal, UpdateWrite(objectType, r, read), io).portal;
            originals.Keys == {r.id}
            && (Undo.Restore(after, schema, originals, Undo.Needed(schema, originals)) == portal
                <==> OnlyWritableChanged(portal, schema, r))
  {
    AutoUpdateRead(portal, objectType, r, read, policy);
    UpdatedPortal(types, portal, objectType, r, read, io);
    UpdateBackIff(portal, schema, r, read);
  }

  lemma AutoUpdateRead(portal: Portal, objectType: string, r: ShapedRec, read: Option<GetReply>, policy: ApprovalPolicy)
    requires Honest(portal, r, read) && ClassifyWrite(UpdateWrite(objectType, r, read), policy) == AUTO
    ensures read.Some? && r.id in portal && UpdateWrite(objectType, r, read).originals == map[r.id := read.value.properties]
  {
    assert read.None? ==> UpdateWrite(objectType, r, read).originals == map[];
  }

  lemma UpdatedPortal(types: set<string>, portal: Portal, objectType: string, r: ShapedRec, read: Option<GetReply>, io: ExecIo)
    requires Invoke(types, portal, UpdateWrite(objectType, r, read), io).ok && r.id in portal
    ensures Invoke(types, portal, UpdateWrite(objectType, r, read), io).portal
         == portal[r.id := Patch(portal[r.id], r.properties.value)]
  {
    ToolKinds();
  }

  lemma UpdateBackIff(portal: Portal, schema: seq<Undo.SchemaEntry>, r: ShapedRec, read: Option<GetReply>)
    requires read.Some? && Honest(portal, r, read)
    ensures var originals := map[r.id := read.value.properties];
            var after := portal[r.id := Patch(portal[r.id], r.properties.value)];
            Undo.Restore(after, schema, originals, Undo.Needed(schema, originals)) == portal <==> OnlyWritableChanged(portal, schema, r)
  {
    var originals := map[r.id := read.value.properties];
    var after := portal[r.id := Patch(portal[r.id], r.properties.value)];
    var back := Undo.Restore(after, schema, originals, Undo.Needed(schema, originals));
    RestoredOne(after, schema, originals, r.id);
    AutoRecordBack(portal, schema, r, read);
    assert forall id <- portal :: id != r.id ==> back[id] == portal[id];
    assert back.Keys == portal.Keys;
  }
}

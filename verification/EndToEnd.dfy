/** Command by command: what one command does, a later one takes back or builds on. */
module EndToEnd {
  import opened Wrappers
  import opened Records
  import opened Tools
  import opened Policy
  import opened Cron
  import opened Gate
  import opened Effects
  import opened Loop
  import opened LoopProofs
  import opened LoopFacts
  import opened Engine
  import opened WriteSafety
  import Client
  import Pattern
  import Undo
  import AutoUndo

  // ----- A failed execution -----

  /** An execution that does not succeed reports no execution and leaves the action pending for a retry,
      with at most a supplied count added; if it changed a record, that is reported as broken off. */
  lemma FailedExecutionKeepsPending(w: World, id: ActionId, count: Option<int>, io: ExecIo)
    requires id in w.store.entries && Execute(w, id, count, io).2 != Success
    ensures var (w', events, _) := Execute(w, id, count, io);
            && (w'.portal == w.portal || HasWritten(events, id)) && w'.audit == w.audit && NoExecution(events)
            && (w'.store == w.store || (count.Some? && w'.store == Confirmed(w.store, id, count.value)
                                        && count.value == w.store.entries[id].required))
  {
    ExecuteChanges(w, id, count, io);
  }

  /** A supplied count is remembered: after a write that failed, a bare approve completes the action. */
  lemma RetryNeedsNoSecondCount(w: World, id: ActionId, count: int, io: ExecIo, retry: ExecIo)
    requires id in w.store.entries && NeedsCount(w.store.entries[id])
    requires Execute(w, id, Some(count), io).2 in {WriteFailed, SnapshotFailed}
    requires var w1 := Execute(w, id, Some(count), io).0;
             retry.snapshotSaved && Invoke(w1.objectTypes, w1.portal, w.store.entries[id].write, retry).ok
    ensures Execute(Execute(w, id, Some(count), io).0, id, None, retry).2 == Success
  {
    var w1 := Execute(w, id, Some(count), io).0;
    assert w1.store.entries[id].confirmed == Some(count);
  }

  // ----- A bulk update that breaks off -----

  /** The pending record of a bulk update of this many records or more, of an existing object type. */
  predicate IsBulk(w: World, id: ActionId) {
    && id in w.store.entries && w.store.entries[id].pattern.None?
    && KindOf(w.store.entries[id].write.tool).BulkUpdate? && w.store.entries[id].write.intent.Update?
    && WellShaped(w.store.entries[id].write) && TypeOk(w.objectTypes, w.store.entries[id].write)
  }

  /** What a bulk update leaves behind that raises after some of its chunks: the records of those chunks as
      they landed, no snapshot, no audit entry, and the action still pending. */
  lemma BrokenOffBulk(w: World, id: ActionId, count: Option<int>, io: ExecIo)
    requires IsBulk(w, id) && GatePasses(w.store.entries[id], count)
    requires io.reply.Raises? && io.snapshotSaved && io.snapshotDropped
    ensures var records := w.store.entries[id].write.payload.records.value;
            var (w', events, result) := Execute(w, id, count, io);
            && result == WriteFailed && NoExecution(events)
            && w'.portal == BulkApply(w.portal, records[..SentBefore(|records|, io.reply.chunks)], io.lands)
            && w'.audit == w.audit && id !in w'.snapshots
            && id in w'.store.entries && w'.store.entries[id].write == w.store.entries[id].write
            && w'.store.entries[id].pattern.None? && GatePasses(w'.store.entries[id], None)
            && w'.objectTypes == w.objectTypes
  {
  }

  /** One hundred and fifty records: the first chunk lands, the second raises, and a record has changed of
      which no snapshot, no audit entry and no execution tells. */
  lemma SecondChunkOfTwo(w: World, id: ActionId, count: Option<int>, io: ExecIo)
    requires IsBulk(w, id) && GatePasses(w.store.entries[id], count)
    requires var records := w.store.entries[id].write.payload.records.value;
             |records| == 150 && (forall i :: 0 <= i < 150 ==> records[i] == Rec(Numeral(i), Some(map["city" := Text("Bern")])))
    requires Numeral(0) in w.portal && Lookup(w.portal[Numeral(0)], "city") == Some("Basel")
    requires io.reply == Raises(1) && io.lands == [] && io.snapshotSaved && io.snapshotDropped
    ensures var (w', events, result) := Execute(w, id, count, io);
            && result == WriteFailed && Lookup(w'.portal[Numeral(0)], "city") == Some("Bern")
            && NoExecution(events) && w'.audit == w.audit && id !in w'.snapshots && id in w'.store.entries
  {
    BrokenOffBulk(w, id, count, io);
    var records := w.store.entries[id].write.payload.records.value;
    forall j | 0 < j < 100
      ensures records[..100][j].id != records[..100][0].id
    {
      assert |Numeral(j)| != |Numeral(0)|;
    }
    BulkRecord(w.portal, records[..100], [], 0);
  }

  function Numeral(n: nat): RecordId { seq(n + 1, _ => '1') }

  /** A retry completes it: the portal is as if nothing had gone wrong, and the snapshot that it leaves
      holds the values from before the first attempt. */
  lemma RetriedBulk(w: World, id: ActionId, count: Option<int>, io: ExecIo, retry: ExecIo)
    requires IsBulk(w, id) && GatePasses(w.store.entries[id], count)
    requires io.reply.Raises? && io.snapshotSaved && io.snapshotDropped
    requires retry.reply.Accepts? && retry.lands == [] && retry.snapshotSaved
    ensures var p := w.store.entries[id];
            var (w2, _, result) := Execute(Execute(w, id, count, io).0, id, None, retry);
            && result == Success && w2.portal == BulkApply(w.portal, p.write.payload.records.value, [])
            && id in w2.snapshots && w2.snapshots[id].originals == p.write.originals
  {
    BrokenOffBulk(w, id, count, io);
    var records := w.store.entries[id].write.payload.records.value;
    BulkTwice(w.portal, records, SentBefore(|records|, io.reply.chunks), io.lands);
    BulkCompletes(Execute(w, id, count, io).0, id, retry);
  }

  lemma BulkCompletes(w: World, id: ActionId, io: ExecIo)
    requires IsBulk(w, id) && GatePasses(w.store.entries[id], None)
    requires io.reply.Accepts? && io.snapshotSaved
    ensures var p := w.store.entries[id];
            var (w', _, result) := Execute(w, id, None, io);
            && result == Success && w'.portal == BulkApply(w.portal, p.write.payload.records.value, io.lands)
            && id in w'.snapshots && w'.snapshots[id].originals == p.write.originals
  {
  }

  /** A rejection leaves what was written, and nothing that could undo it. */
  lemma RejectedBulk(w: World, id: ActionId, count: Option<int>, io: ExecIo)
    requires IsBulk(w, id) && GatePasses(w.store.entries[id], count)
    requires io.reply.Raises? && io.snapshotSaved && io.snapshotDropped
    ensures var w1 := Execute(w, id, count, io).0;
            var w2 := Apply(w1, Reject(id)).0;
            && w2.portal == w1.portal && id !in w2.store.entries
            && forall acked, raised, replies :: UndoAction(w2, id, acked, raised, replies) == (w2, [])
  {
    BrokenOffBulk(w, id, count, io);
  }

  // ----- When HubSpot refuses everything -----

  /** HubSpot refuses every call that the execution makes. */
  ghost predicate RefusesAll(p: Pending, io: ExecIo) {
    io.reply.Refuses? && (p.pattern.Some? ==> forall t <- Turns(io.turns, |p.pattern.value|) :: t.fate.ReadFails?)
  }

  /** Past its gate, an action of which HubSpot refuses every call stays pending if and only if it is no
      pattern rule and its tool is none of the two batch tools, which list refusals in their result. */
  lemma RefusedStaysPendingIff(w: World, id: ActionId, count: Option<int>, io: ExecIo)
    requires id in w.store.entries && GatePasses(w.store.entries[id], count) && RefusesAll(w.store.entries[id], io)
    requires io.snapshotSaved && WellShaped(w.store.entries[id].write) && TypeOk(w.objectTypes, w.store.entries[id].write)
    ensures var p := w.store.entries[id];
            id in Execute(w, id, count, io).0.store.entries
            <==> p.pattern.None? && !KindOf(p.write.tool).BulkUpdate? && !KindOf(p.write.tool).BatchUpsert?
  {
  }

  /** A failing instance: a bulk update of which every record is refused counts as executed. */
  lemma RefusedBulkIsExecuted(w: World, id: ActionId, count: Option<int>, io: ExecIo)
    requires IsBulk(w, id) && GatePasses(w.store.entries[id], count) && io.reply.Refuses? && io.snapshotSaved
    ensures var (w', events, result) := Execute(w, id, count, io);
            result == Success && HasExecuted(events, id) && id !in w'.store.entries && w'.portal == w.portal
  {
    var events := Execute(w, id, count, io).1;
    assert events[|events| - 1] in events && events[|events| - 1].Executed?;
  }

  /** Another: a pattern rule whose every re-read fails is cleared with nothing applied, no snapshot and
      no audit entry. */
  lemma RefusedPatternIsExecuted(w: World, id: ActionId, count: Option<int>, io: ExecIo)
    requires id in w.store.entries && GatePasses(w.store.entries[id], count)
    requires w.store.entries[id].pattern.Some? && io.turns == []
    ensures var (w', events, result) := Execute(w, id, count, io);
            && result == Success && HasExecuted(events, id) && id !in w'.store.entries
            && w'.portal == w.portal && w'.snapshots == w.snapshots && w'.audit == w.audit
  {
    var matched := w.store.entries[id].pattern.value;
    NoReadNoWrite(w.portal, matched, Turns([], |matched|));
    var events := Execute(w, id, count, io).1;
    assert events[|events| - 1] in events && events[|events| - 1].Executed?;
  }

  lemma {:induction false} NoReadNoWrite(portal: Portal, matched: seq<Pattern.Entry>, turns: seq<Pattern.Turn>)
    requires |turns| == |matched| && forall t <- turns :: t.fate.ReadFails? && t.others == map[]
    ensures var b := Pattern.Run(portal, matched, turns); b.portal == portal && b.applied == [] && b.originals == map[]
    decreases |matched|
  {
    if matched != [] {
      var n := |matched| - 1;
      NoReadNoWrite(portal, matched[..n], turns[..n]);
      assert turns[n] in turns && portal + map[] == portal;
    }
  }

  // ----- Confirming -----

  /** `confirm` with the required count gets past the gate if and only if no count is needed, the bare
      path prompts for one, or it is on record already. `approve` with the required count always does. */
  lemma ConfirmReachesIff(w: World, id: ActionId, io: ExecIo)
    requires id in w.store.entries
    ensures var p := w.store.entries[id];
            Confirm(w, id, p.required, io).2 !in {CountNeeded, WrongCount}
            <==> !NeedsCount(p) || PromptsForCount(p) || p.confirmed == Some(p.required)
    ensures Execute(w, id, Some(w.store.entries[id].required), io).2 !in {CountNeeded, WrongCount}
  {
  }

  /** The failing input: a single update whose pre-image could not be read is FULL_GATE but prompts for
      nothing, so that no `confirm`, not even with the right count, ever executes it. */
  lemma ConfirmStuck(w: World, call: Call, count: int, io: ExecIo)
    requires KindOf(call.tool).UpdateObject? && call.payload.objectType.Some? && ImpactCount(call.payload) == 1
    ensures var id := w.store.nextId;
            var p := Staged(WriteOf(call, map[]), w.policy, false, None, w.now);
            var w1 := w.(store := Put(w.store, p));
            NeedsCount(p) && p.required == 1 && Confirm(w1, id, count, io) == (w1, [], CountNeeded)
  {
    IntentOfKind(call.tool, call.verb);
    UpdateIsNoDelete(call.tool, call.verb, call.payload.objectType, call.registered);
  }

  // ----- Pattern approve, then undo -----

  /** A pre-image captured for exactly the changed fields, all of them writable, covers its entry
      whatever the record holds when the rule is applied. */
  lemma CapturedEntryIsCovered(schema: seq<Undo.SchemaEntry>, r: Record, e: Pattern.Entry)
    requires e.preImage.Keys == e.changes.Keys && forall k <- e.changes :: !Undo.ReadOnly(schema, k)
    ensures Undo.Covers(schema, r, e)
  {
    assert Undo.Writable(schema, e.preImage).Keys == e.changes.Keys;
  }

  /** A record whose pre-image could not be captured has an empty one. Compare-and-set then writes it
      only where every changed field is unset, and undo takes that back only if the rule left them so. */
  lemma UncapturedEntryIsKept(schema: seq<Undo.SchemaEntry>, r: Record, e: Pattern.Entry)
    requires e.preImage == map[]
    ensures Pattern.StillAsCaptured(r, e) <==> forall k <- e.changes :: Lookup(r, k) == None
    ensures Pattern.StillAsCaptured(r, e) ==>
              (Undo.Covers(schema, r, e) <==> forall k <- e.changes :: Render(e.changes[k]) == None)
  {
    assert Undo.Writable(schema, e.preImage) == map[];
    forall k <- e.changes
      ensures Get(e.preImage, k) == None && k !in Undo.Writable(schema, e.preImage)
    {
    }
  }

  /** Every record the rule was approved for becomes one entry, with its own captured pre-image. */
  lemma {:induction false} MatchedEntries(records: seq<Rec>, originals: map<RecordId, Values>, i: nat)
    requires i < |records| && forall r <- records :: r.Rec?
    ensures |Matched(records, originals)| == |records|
    ensures Matched(records, originals)[i] == Pattern.Entry(
              records[i].id, if records[i].id in originals then originals[records[i].id] else map[],
              if records[i].properties.Some? then records[i].properties.value else map[])
    decreases |records|
  {
    var n := |records| - 1;
    assert forall r <- records[..n] :: r in records;
    assert records[n] in records;
    if n > 0 { MatchedEntries(records[..n], originals, if i < n then i else 0); }
  }

  /** A pattern write is never AUTO; past the threshold it demands the size of its matched set. */
  lemma PatternIsAlwaysAsked(write: Write, policy: ApprovalPolicy, now: Instant)
    ensures var p := Staged(write, policy, true, None, now);
            && p.tier != Some(AUTO) && p.pattern.Some?
            && (NeedsCount(p) <==> |p.pattern.value| > policy.patternConfirmThreshold)
            && (NeedsCount(p) ==> p.required == |p.pattern.value|)
  {
  }

  /** Asking for pattern mode lowers the gate of an eligible write from FULL_GATE to CONFIRM exactly when
      the matched set is within the threshold and no pre-image was captured, or a captured property is
      sensitive under "sensitive is full_gate". */
  lemma PatternLowersGateIff(w: Write, policy: ApprovalPolicy, now: Instant)
    requires Genuine(w) && PatternEligible(w, policy)
    ensures (ClassifyWrite(w, policy) == FULL_GATE && Staged(w, policy, true, None, now).tier == Some(CONFIRM))
       <==> && |Matched(RecordsOf(w), w.originals)| <= policy.patternConfirmThreshold
            && (w.originals == map[]
                || (policy.sensitiveIsFullGate && w.tool !in policy.neverAutoTools
                    && TouchedKeys(w) * policy.sensitiveProperties != {}))
  {
    ToolKinds();
    GenuineIntent(w);
  }

  /** An undo of an update with every needed call acknowledged. */
  lemma UndoAllAcked(w: World, id: ActionId, originals: map<RecordId, Values>)
    requires id in w.snapshots && w.snapshots[id] == Snapshot(Update, true, w.snapshots[id].target, originals, [])
    requires originals != map[] && originals.Keys <= w.portal.Keys
    ensures var needed := Undo.Needed(w.schema, originals);
            var w' := UndoAction(w, id, needed, false, []).0;
            && w'.portal == Undo.Restore(w.portal, w.schema, originals, needed)
            && id !in w'.snapshots && UndoneAction(id) in w'.audit
  {
    var needed := Undo.Needed(w.schema, originals);
    assert needed * needed * w.portal.Keys == needed;
  }

  lemma ExecutedPattern(w: World, id: ActionId, count: Option<int>, io: ExecIo)
    requires id in w.store.entries && w.store.entries[id].pattern.Some?
    requires Execute(w, id, count, io).2 == Success && io.snapshotSaved
    ensures var matched := w.store.entries[id].pattern.value;
            var b := Pattern.Run(w.portal, matched, Turns(io.turns, |matched|));
            var w1 := Execute(w, id, count, io).0;
            && w1.portal == b.portal && w1.schema == w.schema
            && (b.originals != map[] ==> id in w1.snapshots && w1.snapshots[id] == Snapshot(Update, true, w.store.entries[id].write.payload.objectType, b.originals, []))
  {
  }

  lemma OriginalsAreRecords(portal: Portal, matched: seq<Pattern.Entry>, b: Pattern.Batch)
    requires Pattern.Explains(portal, matched, b)
    ensures b.originals.Keys <= b.portal.Keys
  {
    forall x <- b.applied
      ensures x in b.portal
    {
      var e := Undo.EntryWithId(matched, x);
      assert Pattern.EntryExplained(portal, b, e);
    }
  }

  /** Approving a pattern with no other writer, and undoing it with every call succeeding: the snapshot is
      consumed, and the portal is as it was exactly when every applied entry was covered. */
  lemma PatternThenUndo(w: World, id: ActionId, count: Option<int>, io: ExecIo)
    requires id in w.store.entries && w.store.entries[id].pattern.Some?
    requires Pattern.DistinctIds(w.store.entries[id].pattern.value)
    requires Execute(w, id, count, io).2 == Success && io.snapshotSaved
    requires var matched := w.store.entries[id].pattern.value;
             && Pattern.NoOtherWriter(Turns(io.turns, |matched|))
             && Pattern.Run(w.portal, matched, Turns(io.turns, |matched|)).originals != map[]
    ensures var matched := w.store.entries[id].pattern.value;
            var b := Pattern.Run(w.portal, matched, Turns(io.turns, |matched|));
            var w1 := Execute(w, id, count, io).0;
            var w2 := UndoAction(w1, id, Undo.Needed(w.schema, b.originals), false, []).0;
            && w1.portal == b.portal && id !in w2.snapshots && UndoneAction(id) in w2.audit
            && (w2.portal == w.portal <==> Undo.AllCovered(w.portal, w.schema, matched, b))
  {
    var matched := w.store.entries[id].pattern.value;
    var turns := Turns(io.turns, |matched|);
    var b := Pattern.Run(w.portal, matched, turns);
    Pattern.RunExplained(w.portal, matched, turns);
    Undo.PatternRoundTrip(w.portal, w.schema, matched, turns);
    OriginalsAreRecords(w.portal, matched, b);
    ExecutedPattern(w, id, count, io);
    UndoAllAcked(Execute(w, id, count, io).0, id, b.originals);
  }

  // ----- AUTO, then undo -----

  /** A write returns no result to read. */
  const NOTHING := Whole("", "")

  /** A write that `handle_tool` executes at once leaves its effect and its snapshot. */
  lemma AppliedAtOnce(w: World, call: ToolOutcome)
    requires call.Fine? && IsWrite(call.call) && WellShaped(WriteIn(call)) && WriteIn(call).intent.Update?
    requires ClassifyWrite(WriteIn(call), w.policy) == AUTO && call.io.snapshotSaved
    requires Invoke(w.objectTypes, w.portal, WriteIn(call), call.io).ok
    ensures var id := w.store.nextId;
            var (w1, events, reply) := HandleTool(w, call, false, None);
            && reply == AppliedNow(id) && HasExecuted(events, id) && id !in w1.store.entries
            && w1.portal == Invoke(w.objectTypes, w.portal, WriteIn(call), call.io).portal && w1.schema == w.schema
            && id in w1.snapshots && w1.snapshots[id] == Snapshot(Update, true, call.call.payload.objectType, call.originals, [])
  {
    var events := HandleTool(w, call, false, None).1;
    assert events[0] in events && events[0].id == w.store.nextId;
  }

  /** A bulk update that is applied unasked, as far as it lands, and then undone with every call
      succeeding and nobody else writing, leaves the portal as it was exactly when no read-only property
      of a landed record really changed. */
  lemma AutoThenUndo(w: World, objectType: string, records: seq<AutoUndo.ShapedRec>, replies: seq<Option<GetReply>>, io: ExecIo)
    requires AutoUndo.HonestReads(w.portal, records, replies)
    requires var write := AutoUndo.BulkWrite(objectType, records, Captured(records, replies));
             WellShaped(write) && ClassifyWrite(write, w.policy) == AUTO
    requires forall r <- records :: r.id in w.portal
    requires objectType in w.objectTypes && io.snapshotSaved && io.reply.Accepts?
    ensures var originals := Captured(records, replies);
            var (w1, events, _) := HandleTool(w, Fine(AutoUndo.BulkCall(objectType, records), NOTHING, originals, io), false, None);
            var w2 := UndoAction(w1, w.store.nextId, Undo.Needed(w.schema, originals), false, []).0;
            && HasExecuted(events, w.store.nextId) && w.store.nextId !in w1.store.entries
            && (w2.portal == w.portal <==> AutoUndo.LandedWritable(w.portal, w.schema, records, io.lands))
  {
    var originals := Captured(records, replies);
    var call := Fine(AutoUndo.BulkCall(objectType, records), NOTHING, originals, io);
    AutoUndo.BulkIsStaged(objectType, records, originals);
    assert records != [];
    AutoUndo.AutoCapturesAll(w.portal, objectType, records, replies, w.policy);
    AutoUndo.AutoIsReversible(w.portal, w.schema, objectType, records, io.lands, replies, w.policy);
    assert originals != map[] by { assert records[0].id in AutoUndo.IdSet(records); }
    AppliedAtOnce(w, call);
    forall x <- originals
      ensures x in w.portal
    {
      assert x in AutoUndo.IdSet(records);
    }
    UndoAllAcked(HandleTool(w, call, false, None).0, w.store.nextId, originals);
  }

  /** The same for a single-record update. */
  lemma AutoUpdateThenUndo(w: World, objectType: string, r: AutoUndo.ShapedRec, read: Option<GetReply>, io: ExecIo)
    requires AutoUndo.Honest(w.portal, r, read)
    requires ClassifyWrite(AutoUndo.UpdateWrite(objectType, r, read), w.policy) == AUTO
    requires io.snapshotSaved && Invoke(w.objectTypes, w.portal, AutoUndo.UpdateWrite(objectType, r, read), io).ok
    ensures var originals := AutoUndo.UpdateWrite(objectType, r, read).originals;
            var (w1, events, _) := HandleTool(w, Fine(AutoUndo.UpdateCall(objectType, r), NOTHING, originals, io), false, None);
            var w2 := UndoAction(w1, w.store.nextId, Undo.Needed(w.schema, originals), false, []).0;
            && r.id in w.portal && HasExecuted(events, w.store.nextId)
            && (w2.portal == w.portal <==> AutoUndo.OnlyWritableChanged(w.portal, w.schema, r))
  {
    var write := AutoUndo.UpdateWrite(objectType, r, read);
    var call := Fine(AutoUndo.UpdateCall(objectType, r), NOTHING, write.originals, io);
    AutoUndo.UpdateIsStaged(objectType, r, read);
    AutoUndo.AutoUpdateIsReversible(w.objectTypes, w.portal, w.schema, objectType, r, read, io, w.policy);
    AutoUndo.UpdatedPortal(w.objectTypes, w.portal, objectType, r, read, io);
    AppliedAtOnce(w, call);
    UndoAllAcked(HandleTool(w, call, false, None).0, w.store.nextId, write.originals);
  }

  // ----- Create, then undo -----

  /** The pending record of a tool that reads as a create: any tool with "create" in its name. */
  predicate IsCreate(p: Pending) {
    p.pattern.None? && p.write.intent.Create?
  }

  lemma ExecutedCreate(w: World, id: ActionId, count: Option<int>, io: ExecIo)
    requires id in w.store.entries && IsCreate(w.store.entries[id])
    requires Execute(w, id, count, io).2 == Success
    ensures var p := w.store.entries[id];
            var w1 := Execute(w, id, count, io).0;
            && id in w1.snapshots
            && w1.snapshots[id] == Snapshot(Create, true, p.write.payload.objectType, p.write.originals, RecordedIds(io))
            && (Answer(io.auditSaved, 0) ==> w1.audit == w.audit + [Approved(id)])
            && w1.store.nextId == w.store.nextId && id !in w1.store.entries && w1.loop == w.loop
            && w1.objectTypes == w.objectTypes
  {
  }

  /** `hubspot_create_object` adds exactly one record, of an existing type. */
  lemma ExecutedObject(w: World, id: ActionId, count: Option<int>, io: ExecIo)
    requires id in w.store.entries && IsCreate(w.store.entries[id]) && KindOf(w.store.entries[id].write.tool).CreateObject?
    requires Execute(w, id, count, io).2 == Success
    ensures var w1 := Execute(w, id, count, io).0;
            && io.createdId !in w.portal && io.createdId in w1.portal && w1.portal - {io.createdId} == w.portal
            && ValidType(w, w.store.entries[id].write.payload.objectType)
  {
  }

  /** Undoing an executed create whose id was recorded: the delete's answer decides over record and
      snapshot, if the call named an object type; else nothing happens. */
  lemma CreateThenUndo(w: World, id: ActionId, count: Option<int>, io: ExecIo, reply: Undo.DeleteReply)
    requires id in w.store.entries && IsCreate(w.store.entries[id])
    requires Execute(w, id, count, io).2 == Success && io.idReturned && io.createdSaved
    ensures var w1 := Execute(w, id, count, io).0;
            var w2 := UndoAction(w1, id, {}, false, [reply]).0;
            if ValidType(w, w.store.entries[id].write.payload.objectType) then
              && (id !in w2.snapshots <==> Undo.Counts(reply))
              && w2.portal == (if reply.Deleted? then w1.portal - {io.createdId} else w1.portal)
              && (Undo.Counts(reply) ==> UndoneAction(id) in w2.audit)
            else w2 == w1
  {
    ExecutedCreate(w, id, count, io);
    UndoneCreate(Execute(w, id, count, io).0, id, io.createdId, reply);
  }

  /** Every create is recorded as undoable, but some undo attempt can succeed if and only if the response
      carried the id, it was saved, and the call named an object type. */
  lemma CreateUndoableIff(w: World, id: ActionId, count: Option<int>, io: ExecIo)
    requires id in w.store.entries && IsCreate(w.store.entries[id])
    requires Execute(w, id, count, io).2 == Success
    ensures Execute(w, id, count, io).0.snapshots[id].undoable
    ensures (exists acked, raised, replies :: id !in UndoAction(Execute(w, id, count, io).0, id, acked, raised, replies).0.snapshots)
       <==> io.idReturned && io.createdSaved && ValidType(w, w.store.entries[id].write.payload.objectType)
  {
    var w1 := Execute(w, id, count, io).0;
    ExecutedCreate(w, id, count, io);
    if io.idReturned && io.createdSaved && ValidType(w, w.store.entries[id].write.payload.objectType) {
      UndoneCreate(w1, id, io.createdId, Undo.Deleted);
      assert id !in UndoAction(w1, id, {}, false, [Undo.Deleted]).0.snapshots;
    } else {
      forall acked, raised, replies
        ensures id in UndoAction(w1, id, acked, raised, replies).0.snapshots
      {
        NothingToDelete(w1, id, acked, raised, replies);
      }
    }
  }

  /** The failing input: a note names no object type, so that its undo always raises. */
  lemma NoteCannotBeUndone(w: World, id: ActionId, count: Option<int>, io: ExecIo, acked: set<RecordId>, raised: bool,
                           replies: seq<Undo.DeleteReply>)
    requires id in w.store.entries && IsCreate(w.store.entries[id])
    requires w.store.entries[id].write.tool == "hubspot_create_note" && w.store.entries[id].write.payload.objectType.None?
    requires Execute(w, id, count, io).2 == Success
    ensures var w1 := Execute(w, id, count, io).0; UndoAction(w1, id, acked, raised, replies) == (w1, [])
  {
    ExecutedCreate(w, id, count, io);
    NothingToDelete(Execute(w, id, count, io).0, id, acked, raised, replies);
  }

  /** An undo that goes through takes back what the create did, however HubSpot answered the two, if and
      only if the tool is `hubspot_create_object`. */
  lemma CreateTakenBackIff(w: World, id: ActionId, count: Option<int>)
    requires id in w.store.entries && IsCreate(w.store.entries[id]) && Genuine(w.store.entries[id].write)
    requires GatePasses(w.store.entries[id], count)
    ensures (forall io :: TakesBack(w, id, count, io)) <==> KindOf(w.store.entries[id].write.tool).CreateObject?
  {
    var p := w.store.entries[id];
    GenuineIntent(p.write);
    if KindOf(p.write.tool).CreateObject? {
      forall io
        ensures TakesBack(w, id, count, io)
      {
        if Execute(w, id, count, io).2 == Success && io.idReturned && io.createdSaved {
          ExecutedObject(w, id, count, io);
          CreateThenUndo(w, id, count, io, Undo.Deleted);
        }
      }
    } else {
      var io := WrongDelete(w);
      DeletesAnother(w, id, count, io);
    }
  }

  /** If the create executed, its id was recorded, and an honest HubSpot deleted that id for the undo,
      the portal is as it was. */
  ghost predicate TakesBack(w: World, id: ActionId, count: Option<int>, io: ExecIo) {
    var (w1, _, result) := Execute(w, id, count, io);
    result == Success && io.idReturned && io.createdSaved && Undo.HonestDeletes(w1.portal, [io.createdId], [Undo.Deleted]) ==>
      UndoAction(w1, id, {}, false, [Undo.Deleted]).0.portal == w.portal
  }

  /** The new thing's id is that of a record of the type that the call names. */
  function WrongDelete(w: World): ExecIo {
    var after: Portal := if "18" in w.portal then map["17" := map[]] else map["17" := map[], "18" := map[]];
    ExecIo(true, true, Accepts, [], "17", true, true, map[], after, [], [])
  }

  lemma DeletesAnother(w: World, id: ActionId, count: Option<int>, io: ExecIo)
    requires id in w.store.entries && IsCreate(w.store.entries[id]) && KindOf(w.store.entries[id].write.tool).OtherTool?
    requires GatePasses(w.store.entries[id], count) && io == WrongDelete(w)
    ensures !TakesBack(w, id, count, io)
  {
    var (w1, _, result) := Execute(w, id, count, io);
    assert result == Success && w1.portal == io.elsewhere;
    CreateThenUndo(w, id, count, io, Undo.Deleted);
    assert Undo.HonestDeletes(w1.portal, ["17"], [Undo.Deleted]);
    var w2 := UndoAction(w1, id, {}, false, [Undo.Deleted]).0;
    assert "18" in w2.portal <==> "18" !in w.portal;
  }

  /** The failing input: a new pipeline has the id of a deal; undoing it deletes the deal, which the create
      never touched. */
  lemma PipelineUndoDeletesDeal(w: World, id: ActionId, count: Option<int>, io: ExecIo)
    requires id in w.store.entries && IsCreate(w.store.entries[id]) && GatePasses(w.store.entries[id], count)
    requires w.store.entries[id].write.tool == "hubspot_create_pipeline"
    requires w.store.entries[id].write.payload.objectType == Some("deals") && "deals" in w.objectTypes
    requires io.snapshotSaved && io.reply.Accepts? && io.elsewhere == w.portal && io.idReturned && io.createdSaved
    requires io.createdId in w.portal
    ensures var w2 := UndoAction(Execute(w, id, count, io).0, id, {}, false, [Undo.Deleted]).0;
            io.createdId !in w2.portal && id !in w2.snapshots
  {
    assert KindOf("hubspot_create_pipeline").OtherTool? by { OtherCreate(); }
    CreateThenUndo(w, id, count, io, Undo.Deleted);
  }

  lemma OtherCreate()
    ensures KindOf("hubspot_create_pipeline") == OtherTool
  {
    var tool := "hubspot_create_pipeline";
    assert |tool| == 23 && |UPDATE_OBJECT| == 21 && |BULK_UPDATE| == 27 && |BATCH_UPSERT| == 28
        && |CREATE_OBJECT| == 21 && |DELETE_OBJECT| == 21 && |MERGE_OBJECTS| == 21;
  }

  lemma NothingToDelete(w: World, id: ActionId, acked: set<RecordId>, raised: bool, replies: seq<Undo.DeleteReply>)
    requires id in w.snapshots && w.snapshots[id].intent.Create?
    requires w.snapshots[id].createdIds == [] || !ValidType(w, w.snapshots[id].target)
    ensures UndoAction(w, id, acked, raised, replies) == (w, [])
  {
  }

  lemma UndoneCreate(w: World, id: ActionId, created: RecordId, reply: Undo.DeleteReply)
    requires id in w.snapshots && w.snapshots[id].intent.Create? && w.snapshots[id].undoable && w.snapshots[id].createdIds == [created]
    ensures var w' := UndoAction(w, id, {}, false, [reply]).0;
            if ValidType(w, w.snapshots[id].target) then
              && w'.portal == (if reply.Deleted? then w.portal - {created} else w.portal)
              && (id !in w'.snapshots <==> Undo.Counts(reply))
              && (Undo.Counts(reply) ==> UndoneAction(id) in w'.audit)
            else w' == w
  {
    var rs := PaddedReplies([reply], 1);
    assert rs == [reply];
    OneDeleted(created, reply);
    assert Undo.CreateSucceeds([created], rs) ==> Undo.Counts(rs[0]);
  }

  lemma OneDeleted(id: RecordId, reply: Undo.DeleteReply)
    ensures Undo.DeletedIds([id], [reply]) == if reply.Deleted? then {id} else {}
  {
    if reply.Deleted? {
      assert Undo.Reached([reply], 0) && [reply][0].Deleted?;
      assert [id][0] in Undo.DeletedIds([id], [reply]);
    }
  }

  // ----- Undo keeps its snapshot until it has worked -----

  /** A snapshot goes only after its captured writable values are all back, or every one of its
      created ids was deleted or reported as gone; a failed attempt keeps it whole. */
  lemma SnapshotGoesOnlyWhenUndone(w: World, id: ActionId, acked: set<RecordId>, raised: bool, replies: seq<Undo.DeleteReply>)
    requires id in w.snapshots
    ensures var w' := UndoAction(w, id, acked, raised, replies).0;
            && (id in w'.snapshots ==> w'.snapshots == w.snapshots)
            && (id !in w'.snapshots && w.snapshots[id].intent.Update? ==>
                  Undo.FullyRestored(w'.portal, w.schema, w.snapshots[id].originals))
            && (id !in w'.snapshots && w.snapshots[id].intent.Create? ==>
                  var ids := w.snapshots[id].createdIds;
                  var rs := PaddedReplies(replies, |ids|);
                  ids != [] && forall i :: 0 <= i < |ids| ==> ids[i] !in w'.portal || (rs[i].Refused? && Undo.ReadsAsGone(rs[i].text)))
            && (id !in w'.snapshots ==> w.snapshots[id].intent.Update? || w.snapshots[id].intent.Create?)
  {
    var w' := UndoAction(w, id, acked, raised, replies).0;
    if id !in w'.snapshots && w.snapshots[id].intent.Create? {
      var ids := w.snapshots[id].createdIds;
      var rs := PaddedReplies(replies, |ids|);
      forall i | 0 <= i < |ids|
        ensures ids[i] !in w'.portal || (rs[i].Refused? && Undo.ReadsAsGone(rs[i].text))
      {
        assert Undo.Counts(rs[i]);
        assert Undo.Reached(rs, i) by { assert forall j :: 0 <= j <= i ==> Undo.Counts(rs[j]); }
        if rs[i].Deleted? { assert ids[i] in Undo.DeletedIds(ids, rs); }
      }
    }
  }

  function SnapshotOf<T>(w: World, id: ActionId, t: T): Option<T> {
    if id in w.snapshots then Some(t) else None
  }

  /** The undo command is one of the attempts that the convergence theorems are about. */
  lemma UndoIsAnAttempt(w: World, id: ActionId, acked: set<RecordId>, raised: bool, replies: seq<Undo.DeleteReply>)
    requires id in w.snapshots && w.snapshots[id].undoable
    ensures var snap := w.snapshots[id];
            var w' := UndoAction(w, id, acked, raised, replies).0;
            && (snap.intent.Update? && snap.originals != map[] ==>
                  exists done, succeeded :: Undo.HandleUndo(
                    Undo.UndoState(w.portal, Some(snap.originals)), w.schema, done, succeeded,
                    Undo.UndoState(w'.portal, SnapshotOf(w', id, snap.originals))))
            && (snap.intent.Create? && snap.createdIds != [] && ValidType(w, snap.target) ==>
                  Undo.HandleUndoCreate(
                    Undo.CreateState(w.portal, Some(snap.createdIds)), PaddedReplies(replies, |snap.createdIds|),
                    Undo.CreateState(w'.portal, SnapshotOf(w', id, snap.createdIds))))
  {
    var snap := w.snapshots[id];
    var w' := UndoAction(w, id, acked, raised, replies).0;
    if snap.intent.Update? && snap.originals != map[] {
      var done := acked * Undo.Needed(w.schema, snap.originals) * w.portal.Keys;
      assert Undo.HandleUndo(Undo.UndoState(w.portal, Some(snap.originals)), w.schema, done, id !in w'.snapshots,
                             Undo.UndoState(w'.portal, SnapshotOf(w', id, snap.originals)));
    }
  }

  // ----- A parked loop -----

  /** However much time passes, a loop that waits for a person is never dropped: continuing it changes
      nothing while its write is undecided or its verdict outstanding; once the write is decided it moves
      on with all it had, and its plan and counters stay. */
  lemma ParkedLoopWaits(w: World, plan: Option<Plan>, tape: seq<Tries>)
    requires w.loop.Some? && Accounted(w.loop.value)
    requires w.loop.value.status.AwaitingApproval? || w.loop.value.status.AwaitingVerification?
    ensures var s := w.loop.value;
            var w' := RunLoopCommand(w, plan, tape).0;
            && w' == w.(loop := w'.loop) && w'.loop.Some?
            && (s.status.AwaitingVerification? || s.pendingId.value in w.store.entries ==> w' == w)
            && (w' != w ==>
                  var t := w'.loop.value;
                  && t.current == s.current && t.plan == s.plan && t.stepCount == s.stepCount
                  && s.artifacts <= t.artifacts
                  && (t.status.AwaitingVerification? <==> Approved(s.pendingId.value) in Recent(w.audit))
                  && (t.status.AwaitingVerification? || t.status.Halted?))
  {
    var s := w.loop.value;
    if s.status.AwaitingApproval? { EarlierArtifacts(s.artifacts, s.plan, s.current); }
  }

  // ----- A loop's create -----

  /** The loop is parked at a pending create. */
  ghost predicate ParkedAtCreate(w: World) {
    && w.loop.Some? && Accounted(w.loop.value) && w.loop.value.status.AwaitingApproval?
    && w.loop.value.pendingId.value in w.store.entries && IsCreate(w.store.entries[w.loop.value.pendingId.value])
  }

  /** Approve the create that the loop is parked at, then continue the loop. */
  ghost function ApproveAndContinue(w: World, count: Option<int>, io: ExecIo): World
    requires ParkedAtCreate(w)
  {
    RunLoopCommand(Execute(w, w.loop.value.pendingId.value, count, io).0, None, []).0
  }

  /** Approving the create a loop is parked at, its audit saved, and continuing: the loop awaits a verdict
      on the same step, holding the created id exactly if it was recorded. */
  lemma LoopHoldsCreatedId(w: World, count: Option<int>, io: ExecIo)
    requires ParkedAtCreate(w) && Execute(w, w.loop.value.pendingId.value, count, io).2 == Success && Answer(io.auditSaved, 0)
    ensures var s, w2 := w.loop.value, ApproveAndContinue(w, count, io);
            && w2.loop.Some? && w2.loop.value.status.AwaitingVerification?
            && Accounted(w2.loop.value) && w2.loop.value.current == s.current
            && HoldsIds(w2.loop.value.artifacts[s.current], s.plan.steps[s.current], RecordedIds(io))
  {
    var s := w.loop.value;
    var id := s.pendingId.value;
    var w1 := Execute(w, id, count, io).0;
    ExecutedCreate(w, id, count, io);
    ApprovedRecently(w.audit, id);
    ResumedWrite(s, w1.store, w1.audit, RecordedIds(io), w1.now);
    ResumeHoldsIds(s, w1.store, w1.audit, RecordedIds(io), w1.now);
  }

  lemma ApprovedRecently(audit: seq<AuditEntry>, id: ActionId)
    ensures Approved(id) in Recent(audit + [Approved(id)])
  {
    var recent := Recent(audit + [Approved(id)]);
    assert recent[|recent| - 1] == Approved(id);
  }

  lemma ResumedWrite(s: LoopView, st: Store, audit: seq<AuditEntry>, createdIds: seq<RecordId>, now: Instant)
    requires Accounted(s) && s.status.AwaitingApproval?
    requires s.pendingId.value !in st.entries && Approved(s.pendingId.value) in Recent(audit)
    ensures var t := Resume(s, st, audit, createdIds, now);
            && t.status.AwaitingVerification? && Accounted(t) && t.current == s.current && t.plan == s.plan
            && t.artifacts[s.current].createdIds == createdIds
  {
    ResumeAccounted(s, st, audit, createdIds, now);
    EarlierArtifacts(s.artifacts, s.plan, s.current);
  }

  /** The retry gets as far as previewing again: budget left, placeholders resolved, and a good call. */
  ghost predicate RetryPreviews(s: LoopView, tape: seq<Tries>) {
    && s.current < |s.plan.steps| && tape != [] && |tape| >= |s.plan.steps| - s.current
    && Prepare(s).Ready?
    && var a := Client.Settled(tape[0]); a.Success? && a.value.Fine? && IsWrite(a.value.call) && WellShaped(WriteIn(a.value))
  }

  /** When the verdict asks for a retry of an executed create, the step is previewed a second time, and a
      second approval would create the record again, if and only if the first one's id was not recorded:
      with an id recorded the loop escalates. */
  lemma CreateRetriedIff(w: World, count: Option<int>, io: ExecIo, v: Verdict, tape: seq<Tries>)
    requires ParkedAtCreate(w) && Execute(w, w.loop.value.pendingId.value, count, io).2 == Success && Answer(io.auditSaved, 0)
    requires var t := ApproveAndContinue(w, count, io).loop.value;
             && Decision(t, v).0 == Retry
             && RetryPreviews(t.(iterations := t.iterations + 1, artifacts := Without(t.artifacts, t.plan.steps[t.current].number)), tape)
    ensures var w2 := ApproveAndContinue(w, count, io);
            var w3 := VerifyCommand(w2, v, tape).0;
            && (w3.loop.Some? && w3.loop.value.status.AwaitingApproval?
                && w3.loop.value.current == w.loop.value.current && w3.loop.value.pendingId == Some(w2.store.nextId)
                <==> !io.idReturned || !io.createdSaved)
            && (io.idReturned && io.createdSaved ==> w3.loop.Some? && w3.loop.value.status.Escalated? && w3.store == w2.store)
  {
    LoopHoldsCreatedId(w, count, io);
    var w2 := ApproveAndContinue(w, count, io);
    var t := w2.loop.value;
    DropOwn(t.artifacts, t.plan, t.current);
    DecisionFrame(t, v);
    VerifyAccounted(t, v, w2.now);
    if !io.idReturned || !io.createdSaved { RetryParks(w2, v, tape); }
  }

  lemma RetryParks(w: World, v: Verdict, tape: seq<Tries>)
    requires w.loop.Some? && w.loop.value.status.AwaitingVerification? && w.loop.value.current < |w.loop.value.plan.steps|
    requires Verify(w.loop.value, v, w.now).status.Running? && !w.loop.value.scheduled
    requires RetryPreviews(Verify(w.loop.value, v, w.now), tape) && Verify(w.loop.value, v, w.now).current == w.loop.value.current
    ensures var w' := VerifyCommand(w, v, tape).0;
            w'.loop.Some? && w'.loop.value.status.AwaitingApproval?
            && w'.loop.value.current == w.loop.value.current && w'.loop.value.pendingId == Some(w.store.nextId)
  {
    var s := Verify(w.loop.value, v, w.now);
    assert Padded(tape, |s.plan.steps|)[0] == tape[0];
    var r := DriveStep(s, w.store, w.policy, w.now, tape[0]);
    assert r.Halt? && r.loop.status.AwaitingApproval?;
  }
}

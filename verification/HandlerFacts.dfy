/** What the handlers do with one tool call, one pending record and one policy file, said in the words of
    their inputs. */
module HandlerFacts {
  import opened Wrappers
  import opened Records
  import opened Tools
  import opened Policy
  import opened Cron
  import opened Gate
  import opened Effects
  import opened Loop
  import opened Engine
  import Pattern
  import Undo
  import Sweep

  // ----- Read or write -----

  /** The scope ends in `.write` or `.delete`. */
  predicate WritingScope(s: string) {
    (|s| >= 6 && s[|s| - 6..] == ".write") || DeletingScope(s)
  }

  predicate DeletingScope(s: string) { |s| >= 7 && s[|s| - 7..] == ".delete" }

  const OBJECT_TOOLS: set<string> :=
    {"hubspot_update_object", "hubspot_bulk_update_objects", "hubspot_batch_upsert_objects",
     "hubspot_create_object", "hubspot_delete_object", "hubspot_merge_objects"}

  lemma ObjectTools(tool: string)
    ensures tool in OBJECT_TOOLS <==> !KindOf(tool).OtherTool?
  {
  }

  /** The call's records are what `/batch/update` takes, if it is a bulk update. */
  predicate Takeable(call: Call) {
    call.tool == "hubspot_bulk_update_objects" ==>
      && call.payload.records.Some? && |call.payload.records.value| > 0
      && forall r <- call.payload.records.value ::
           r.Rec? && r.id != "" && r.properties.Some? && exists k :: k in r.properties.value
  }

  lemma TakeableIs(call: Call, originals: map<RecordId, Values>)
    ensures WellShaped(WriteOf(call, originals)) <==> Takeable(call)
  {
    ToolKinds();
    assert forall r: Rec :: r.Rec? && r.properties.Some? ==> (r.properties.value != map[] <==> exists k :: k in r.properties.value);
  }

  /** Every call is answered as a read exactly when it is a takeable raw call whose verb is none of the four
      that write, or a call of another tool, none of the object tools, that the registry neither lists as a
      write nor gives a writing scope. A read changes nothing; a bulk update of another shape is refused. */
  lemma ReadExactly(w: World, call: Call, result: ToolResult, originals: map<RecordId, Values>, io: ExecIo,
                    pattern: bool, loopStep: Option<int>)
    ensures var (w', events, reply) := HandleTool(w, Fine(call, result, originals, io), pattern, loopStep);
            && (reply.ReadDone? <==>
                  if call.tool == "hubspot_raw_api" then call.verb !in {"POST", "PUT", "PATCH", "DELETE"}
                  else call.tool !in OBJECT_TOOLS && !call.listed && forall s <- call.registered :: !WritingScope(s))
            && (reply.ReadDone? ==> w' == w && events == [] && reply.result == result)
            && (!Takeable(call) ==> reply.Refusal? && w' == w && events == [])
  {
    TakeableIs(call, originals);
    ObjectTools(call.tool);
    ToolKinds();
    ObjectToolsWrite(call.tool, call.verb, call.payload.objectType, call.registered, call.listed);
    WritesIs(call);
    HandledAs(w, call, result, originals, io, pattern, loopStep);
    assert call.tool !in OBJECT_TOOLS ==> Takeable(call);
  }

  lemma HandledAs(w: World, call: Call, result: ToolResult, originals: map<RecordId, Values>, io: ExecIo,
                  pattern: bool, loopStep: Option<int>)
    ensures var r := HandleTool(w, Fine(call, result, originals, io), pattern, loopStep);
            if !WellShaped(WriteOf(call, originals)) then r.0 == w && r.1 == [] && r.2.Refusal?
            else if !IsWrite(call) then r == (w, [], ReadDone(result))
            else !r.2.ReadDone?
  {
    ObjectToolsWrite(call.tool, call.verb, call.payload.objectType, call.registered, call.listed);
  }

  lemma WritesIs(call: Call)
    requires KindOf(call.tool).OtherTool?
      || IsWriteTool(call.tool, call.verb, RequiredScopes(call.tool, call.payload.objectType, call.registered), call.listed)
    ensures IsWrite(call) <==>
              if call.tool == "hubspot_raw_api" then call.verb in {"POST", "PUT", "PATCH", "DELETE"}
              else call.tool in OBJECT_TOOLS || call.listed || exists s <- call.registered :: WritingScope(s)
  {
    ObjectTools(call.tool);
    if KindOf(call.tool).OtherTool? { OtherWrites(call); }
  }

  lemma OtherWrites(call: Call)
    requires KindOf(call.tool).OtherTool?
    ensures IsWrite(call) <==>
              if call.tool == RAW_API then call.verb in {"POST", "PUT", "PATCH", "DELETE"}
              else call.listed || exists s <- call.registered :: WritingScope(s)
  {
    WritingScopes(call.registered);
    assert ScopesOf(call) == call.registered;
  }

  lemma WritingScopes(scopes: set<string>)
    ensures (exists s <- scopes :: EndsWith(s, ".write") || EndsWith(s, ".delete")) <==> exists s <- scopes :: WritingScope(s)
  {
    forall s: string
      ensures WritingScope(s) <==> EndsWith(s, ".write") || EndsWith(s, ".delete")
    {
    }
  }

  // ----- The staged record -----

  /** The text holds the word. */
  ghost predicate Says(text: string, word: string) { Undo.Holds(text, word) }

  /** The intent, by the words in the tool's name. */
  ghost predicate IntentIs(call: Call, intent: Intent) {
    if call.tool == "hubspot_raw_api" then (intent == Delete <==> call.verb == "DELETE") && (intent == OtherWrite <==> call.verb != "DELETE")
    else
      && (intent == Delete <==> Says(call.tool, "delete"))
      && (intent == Create <==> !Says(call.tool, "delete") && Says(call.tool, "create"))
      && (intent == Update <==> !Says(call.tool, "delete") && !Says(call.tool, "create") && SaysUpdate(call.tool))
      && (intent == Merge <==>
            !Says(call.tool, "delete") && !Says(call.tool, "create") && !SaysUpdate(call.tool) && Says(call.tool, "merge"))
  }

  ghost predicate SaysUpdate(text: string) { Says(text, "update") || Says(text, "upsert") || Says(text, "bulk") }

  lemma IntentWords(call: Call)
    ensures IntentIs(call, IntentType(call.tool, call.verb))
  {
    Undo.ContainsIsHolds(call.tool, "delete");
    Undo.ContainsIsHolds(call.tool, "create");
    Undo.ContainsIsHolds(call.tool, "update");
    Undo.ContainsIsHolds(call.tool, "upsert");
    Undo.ContainsIsHolds(call.tool, "bulk");
    Undo.ContainsIsHolds(call.tool, "merge");
  }

  /** The first of the five list arguments that is there gives the count; without any it is one. */
  ghost predicate CountIs(p: Payload, n: nat) {
    && (p.records.Some? ==> n == |p.records.value|)
    && (p.records.None? && p.inputs.Some? ==> n == |p.inputs.value|)
    && (p.records.None? && p.inputs.None? && p.members.Some? ==> n == p.members.value)
    && (p.records.None? && p.inputs.None? && p.members.None? && p.objectIds.Some? ==> n == p.objectIds.value)
    && (p.records.None? && p.inputs.None? && p.members.None? && p.objectIds.None? && p.ids.Some? ==> n == p.ids.value)
    && (p.records.None? && p.inputs.None? && p.members.None? && p.objectIds.None? && p.ids.None? ==> n == 1)
  }

  /** A raw DELETE, a delete or merge of objects, and another tool with a deleting scope. */
  ghost predicate DestructiveCall(call: Call) {
    || (call.tool == "hubspot_raw_api" && call.verb == "DELETE")
    || call.tool == "hubspot_delete_object" || call.tool == "hubspot_merge_objects"
    || (call.tool !in OBJECT_TOOLS && exists s <- call.registered :: DeletingScope(s))
  }

  lemma RemovalRisk(call: Call)
    requires KindOf(call.tool).DeleteObject? || KindOf(call.tool).MergeObjects?
    ensures exists s <- ScopesOf(call) :: EndsWith(s, ".delete")
  {
    HasScope({"write", "delete"}, call.payload.objectType, "delete");
    assert "." + "delete" == ".delete";
  }

  lemma ChangeRisk(call: Call)
    requires !KindOf(call.tool).DeleteObject? && !KindOf(call.tool).MergeObjects? && !KindOf(call.tool).OtherTool?
    ensures forall s <- ScopesOf(call) :: !EndsWith(s, ".delete")
  {
    forall s <- ScopesOf(call)
      ensures !EndsWith(s, ".delete")
    {
      WriteScope(s, call.payload.objectType);
    }
  }

  lemma OtherRisk(call: Call)
    requires KindOf(call.tool).OtherTool?
    ensures (exists s <- ScopesOf(call) :: EndsWith(s, ".delete")) <==> exists s <- call.registered :: DeletingScope(s)
  {
    forall s: string
      ensures EndsWith(s, ".delete") <==> DeletingScope(s)
    {
    }
    assert ScopesOf(call) == call.registered;
  }

  lemma RiskIs(call: Call)
    ensures RiskLevel(call.tool, call.verb, ScopesOf(call)) == Destructive <==> DestructiveCall(call)
    ensures RiskLevel(call.tool, call.verb, ScopesOf(call)) in {Medium, Destructive}
  {
    ObjectTools(call.tool);
    match KindOf(call.tool)
    case DeleteObject => RemovalRisk(call);
    case MergeObjects => RemovalRisk(call);
    case OtherTool => OtherRisk(call);
    case _ =>
      ToolKinds();
      ChangeRisk(call);
  }

  /** What is stored of a write: the call verbatim, its risk, its intent and its count; without a pattern
      the count that approval may ask for is that of the records, whatever the tier. */
  lemma StagedVerbatim(call: Call, originals: map<RecordId, Values>, policy: ApprovalPolicy, loopStep: Option<int>, now: Instant)
    ensures var p := Staged(WriteOf(call, originals), policy, false, loopStep, now);
            && p.write.tool == call.tool && p.write.payload == call.payload && p.write.originals == originals
            && (p.write.risk.Destructive? <==> DestructiveCall(call)) && IntentIs(call, p.write.intent)
            && CountIs(call.payload, p.write.impact) && p.required == p.write.impact
            && p.confirmed.None? && p.pattern.None? && p.origin.None? && p.loopStep == loopStep && p.storedAt == now
  {
    RiskIs(call);
    IntentWords(call);
  }

  /** A raw write is always staged for the full gate, and a raw DELETE as a destructive delete. */
  lemma RawWriteIsGated(w: World, call: Call, result: ToolResult, originals: map<RecordId, Values>, io: ExecIo,
                        pattern: bool, loopStep: Option<int>)
    requires call.tool == "hubspot_raw_api" && call.verb in {"POST", "PUT", "PATCH", "DELETE"}
    ensures var (w', events, reply) := HandleTool(w, Fine(call, result, originals, io), pattern, loopStep);
            var id := w.store.nextId;
            && reply == Previewed(id) && events == [] && w' == w.(store := w'.store)
            && w'.store.nextId == id + 1 && id in w'.store.entries && w'.store.entries == w.store.entries[id := w'.store.entries[id]]
            && w'.store.entries[id].tier == Some(FULL_GATE) && w'.store.entries[id].pattern.None?
            && w'.store.entries[id].confirmed.None?
            && (call.verb == "DELETE" ==>
                  w'.store.entries[id].write.risk.Destructive? && w'.store.entries[id].write.intent.Delete?)
  {
    ToolKinds();
    TakeableIs(call, originals);
    WritesIs(call);
    assert |RAW_API| == 15 && |UPDATE_OBJECT| == 21 && |BULK_UPDATE| == 27;
    RiskIs(call);
  }

  // ----- Pattern mode -----

  /** The write would set the property: in its own properties, or in those of a record or an input. */
  ghost predicate WouldSet(p: Payload, k: Prop) {
    || (p.properties.Some? && k in p.properties.value)
    || (p.records.Some? && exists r <- p.records.value :: r.Rec? && r.properties.Some? && k in r.properties.value)
    || (p.inputs.Some? && exists r <- p.inputs.value :: r.Rec? && r.properties.Some? && k in r.properties.value)
  }

  lemma WouldSetIs(p: Payload, k: Prop)
    ensures k in PropertyKeys(p) <==> WouldSet(p, k)
  {
  }

  /** A staged interactive write is a pattern exactly when one was asked for, the tool is one of the two
      updates, and it would set no sensitive property. */
  lemma PatternExactly(w: World, call: Call, result: ToolResult, originals: map<RecordId, Values>, io: ExecIo, pattern: bool,
                       loopStep: Option<int>)
    requires var reply := HandleTool(w, Fine(call, result, originals, io), pattern, loopStep).2; reply.Previewed?
    ensures var w' := HandleTool(w, Fine(call, result, originals, io), pattern, loopStep).0;
            w.store.nextId in w'.store.entries
            && (w'.store.entries[w.store.nextId].pattern.Some? <==>
                  pattern && loopStep.None? && call.tool in {"hubspot_update_object", "hubspot_bulk_update_objects"}
                  && forall k <- w.policy.sensitiveProperties :: !WouldSet(call.payload, k))
  {
    ToolKinds();
    RiskIs(call);
    forall k <- w.policy.sensitiveProperties
      ensures k in PropertyKeys(call.payload) <==> WouldSet(call.payload, k)
    {
      WouldSetIs(call.payload, k);
    }
    EligibleIs(WriteOf(call, originals), w.policy);
  }

  lemma EligibleIs(w: Write, policy: ApprovalPolicy)
    ensures PatternEligible(w, policy) <==>
              !w.risk.Destructive? && w.tool in {"hubspot_update_object", "hubspot_bulk_update_objects"}
              && forall k <- policy.sensitiveProperties :: k !in PropertyKeys(w.payload)
  {
    var both := PropertyKeys(w.payload) * policy.sensitiveProperties;
    assert forall k <- policy.sensitiveProperties :: k in both <==> k in PropertyKeys(w.payload);
    if both != {} {
      var k :| k in both;
      assert k in policy.sensitiveProperties && k in PropertyKeys(w.payload);
    }
  }

  // ----- Tiers -----

  /** The write would set a sensitive property, or captured one. */
  ghost predicate TouchesSensitive(w: Write, policy: ApprovalPolicy) {
    exists k <- policy.sensitiveProperties :: WouldSet(w.payload, k) || exists id <- w.originals :: k in w.originals[id]
  }

  lemma SensitiveIs(w: Write, policy: ApprovalPolicy)
    ensures TouchesSensitive(w, policy) <==> TouchedKeys(w) * policy.sensitiveProperties != {}
  {
    forall k <- policy.sensitiveProperties
      ensures k in TouchedKeys(w) <==> WouldSet(w.payload, k) || exists id <- w.originals :: k in w.originals[id]
    {
      WouldSetIs(w.payload, k);
    }
    if TouchesSensitive(w, policy) {
      var k :| k in policy.sensitiveProperties && (WouldSet(w.payload, k) || exists id <- w.originals :: k in w.originals[id]);
      assert k in TouchedKeys(w) * policy.sensitiveProperties;
    }
    if TouchedKeys(w) * policy.sensitiveProperties != {} {
      var k :| k in TouchedKeys(w) * policy.sensitiveProperties;
    }
  }

  /** Undo can put it back: a create, or an update of which something was captured. */
  ghost predicate Reversible(w: Write) {
    w.intent == Create || (w.intent == Update && exists id :: id in w.originals)
  }

  /** The full gate, exactly. */
  lemma FullGateExactly(w: Write, policy: ApprovalPolicy)
    ensures ClassifyWrite(w, policy) == FULL_GATE <==>
              || w.risk == Destructive || !Reversible(w)
              || (w.tool !in policy.neverAutoTools && TouchesSensitive(w, policy) && policy.sensitiveIsFullGate)
  {
    SensitiveIs(w, policy);
    ReversibleIs(w);
  }

  /** What goes through unasked, exactly. */
  lemma AutoExactly(w: Write, policy: ApprovalPolicy)
    ensures ClassifyWrite(w, policy) == AUTO <==>
              && w.risk != Destructive && Reversible(w) && w.tool !in policy.neverAutoTools && !TouchesSensitive(w, policy)
              && (w.intent == Update ==> |w.originals| >= w.impact && |w.originals| >= 1)
              && w.impact <= policy.autoApplyMaxRecords && 1 <= policy.autoApplyMaxRecords
  {
    SensitiveIs(w, policy);
    ReversibleIs(w);
    AutoIs(w, policy, TouchedKeys(w) * policy.sensitiveProperties);
  }

  lemma AutoIs(w: Write, policy: ApprovalPolicy, touched: set<Prop>)
    requires touched == TouchedKeys(w) * policy.sensitiveProperties
    ensures ClassifyWrite(w, policy) == AUTO <==>
              && w.risk != Destructive && IsUndoable(w.intent, w.originals) && w.tool !in policy.neverAutoTools && touched == {}
              && (w.intent == Update ==> |w.originals| >= w.impact && |w.originals| >= 1)
              && w.impact <= policy.autoApplyMaxRecords && 1 <= policy.autoApplyMaxRecords
  {
    OriginalsCounted(w);
    if w.risk != Destructive && IsUndoable(w.intent, w.originals) && w.tool !in policy.neverAutoTools && touched == {} {
      assert ClassifyWrite(w, policy) ==
        if w.intent.Update? && |w.originals| < (if w.impact == 0 then 1 else w.impact) then CONFIRM
        else if (if w.impact == 0 then 1 else w.impact) > policy.autoApplyMaxRecords then CONFIRM
        else AUTO;
    } else {
      assert ClassifyWrite(w, policy) != AUTO;
    }
  }

  lemma OriginalsCounted(w: Write)
    ensures w.originals != map[] <==> |w.originals| >= 1
  {
    if w.originals != map[] { assert w.originals.Keys != {}; }
  }

  lemma ReversibleIs(w: Write)
    ensures Reversible(w) <==> IsUndoable(w.intent, w.originals)
  {
    if w.originals != map[] { var id :| id in w.originals; }
  }

  /** Without an override file: a hundred records, a hundred matches, seven days, `confirm`. A malformed
      number falls back to that, or a malformed match threshold to the records; so does a negative queue
      time. An override only adds to the two lists. */
  lemma CoercedExactly(raw: Override)
    ensures var p := Coerce(raw);
            && p.autoApplyMaxRecords == (if raw.maxRecords.Given? then raw.maxRecords.value else 100)
            && p.patternConfirmThreshold == (if raw.patternThreshold.Given? then raw.patternThreshold.value
                                             else if raw.patternThreshold.Missing? then 100 else p.autoApplyMaxRecords)
            && p.scheduleQueueTtlDays == (if raw.queueTtlDays.Given? && raw.queueTtlDays.value >= 0 then raw.queueTtlDays.value else 7)
            && (p.sensitiveIsFullGate <==> raw.sensitiveAction == Given("full_gate"))
            && (forall k :: k in p.sensitiveProperties <==>
                  k in {"amount", "dealstage", "hubspot_owner_id", "lifecyclestage"} || (raw.sensitive.Given? && k in raw.sensitive.value))
            && (forall t :: t in p.neverAutoTools <==>
                  t in {"hubspot_create_workflow", "hubspot_update_workflow", "hubspot_toggle_workflow", "hubspot_enroll_workflow",
                        "hubspot_create_workflow_from_blueprint"}
                  || (raw.neverAuto.Given? && t in raw.neverAuto.value))
  {
  }

  // ----- What a value is stored as -----

  /** A value is stored as its text, whatever its type; null clears the property. */
  lemma StoredAsText(r: Record, k: Prop, s: string)
    ensures Lookup(Patch(r, map[k := Text(s)]), k) == Some(s)
    ensures Lookup(Patch(r, map[k := Other(s)]), k) == Some(s)
    ensures k !in Patch(r, map[k := Null])
  {
    assert Lookup(Patch(r, map[k := Null]), k) == None;
  }

  // ----- What an invoked tool does -----

  /** `after` is `before` with these properties set, and no other. */
  ghost predicate SetOn(before: Record, after: Record, properties: Values) {
    forall k :: Lookup(after, k) == if k in properties then Get(properties, k) else Lookup(before, k)
  }

  /** Each object tool of one call, taken by HubSpot: exactly its record changes, and exactly so. */
  lemma InvokedExactly(types: set<string>, portal: Portal, w: Write, io: ExecIo)
    requires io.reply == Accepts && w.payload.objectType.Some? && w.payload.objectType.value in types
    ensures var r, p := Invoke(types, portal, w, io), w.payload;
            && (w.tool == "hubspot_delete_object" && p.target.Some? ==>
                  (r.ok <==> p.target.value in portal) && forall id :: id in r.portal <==> id in portal && id != p.target.value)
            && (w.tool == "hubspot_merge_objects" && p.target.Some? && p.merged.Some? ==>
                  (r.ok <==> p.target.value in portal && p.merged.value in portal && p.target != p.merged)
                  && (r.ok ==> forall id :: id in r.portal <==> id in portal && id != p.merged.value))
            && (w.tool == "hubspot_create_object" && p.properties.Some? ==>
                  (r.ok <==> io.createdId !in portal)
                  && (r.ok ==> r.portal.Keys == portal.Keys + {io.createdId}
                               && SetOn(io.filledIn, r.portal[io.createdId], p.properties.value)))
            && (w.tool == "hubspot_update_object" && p.target.Some? && p.properties.Some? ==>
                  (r.ok <==> p.target.value in portal)
                  && (r.ok ==> r.portal.Keys == portal.Keys
                               && SetOn(portal[p.target.value], r.portal[p.target.value], p.properties.value)))
            && (w.tool in {"hubspot_delete_object", "hubspot_merge_objects", "hubspot_create_object", "hubspot_update_object"} ==>
                  (!r.ok ==> r.portal == portal)
                  && forall id :: id in portal && id in r.portal && Some(id) != p.target ==> r.portal[id] == portal[id])
  {
    ToolKinds();
    assert KindOf(w.tool).DeleteObject? && w.payload.target.Some? && w.payload.target.value !in portal ==>
      forall id :: id in portal ==> id != w.payload.target.value;
  }

  /** A merge that names no type is one of contacts; any other object tool without a type, or with one that
      HubSpot does not have, is refused and changes nothing. */
  lemma TypeChecked(types: set<string>, portal: Portal, w: Write, io: ExecIo, contacts: string)
    requires w.tool in OBJECT_TOOLS && contacts in types
    ensures w.payload.objectType.None? && w.tool == "hubspot_merge_objects" ==>
              Invoke(types, portal, w, io) == Invoke(types, portal, w.(payload := w.payload.(objectType := Some(contacts))), io)
    ensures w.payload.objectType.None? && w.tool != "hubspot_merge_objects" ==>
              Invoke(types, portal, w, io) == Invoked(portal, false)
    ensures w.payload.objectType.Some? && w.payload.objectType.value !in types ==>
              Invoke(types, portal, w, io) == Invoked(portal, false)
  {
    ObjectTools(w.tool);
    ToolKinds();
  }

  // ----- Approving -----

  /** The gate and its answers, for every record and every count: `approve` runs an action without a count
      exactly when its tier is not FULL_GATE (or, without a tier, it is neither destructive nor of several
      records) or the count is on record; with a count it must be the required one, if it is needed. */
  lemma ApproveExactly(w: World, id: ActionId, count: Option<int>, io: ExecIo)
    ensures var (w', events, result) := Execute(w, id, count, io);
            if id !in w.store.entries then w' == w && events == [] && result == NotFound
            else
              var p := w.store.entries[id];
              var gated := if p.tier.Some? then p.tier.value == FULL_GATE else p.write.risk == Destructive || p.required > 1;
              && (result == CountNeeded <==> gated && count.None? && p.confirmed != Some(p.required))
              && (result == WrongCount <==> gated && count.Some? && count.value != p.required)
              && (result in {CountNeeded, WrongCount} ==> w' == w && events == [])
              && (result == Success <==> id !in w'.store.entries)
  {
  }

  /** After a success without a pattern: the action is gone, its audit entry there if it could be saved, and
      its snapshot holds what undo needs; nothing else of the stores has changed. */
  lemma SuccessRecords(w: World, id: ActionId, count: Option<int>, io: ExecIo)
    requires id in w.store.entries && w.store.entries[id].pattern.None? && Execute(w, id, count, io).2 == Success
    ensures var p := w.store.entries[id];
            var w' := Execute(w, id, count, io).0;
            && w'.store.entries == w.store.entries - {id} && w'.store.nextId == w.store.nextId
            && w'.audit == w.audit + (if io.auditSaved == [] || io.auditSaved[0] then [Approved(id)] else [])
            && (if p.write.intent == OtherWrite then w'.snapshots == w.snapshots
                else id in w'.snapshots && w'.snapshots == w.snapshots[id := w'.snapshots[id]]
                     && SnapshotHolds(w'.snapshots[id], p.write, io))
  {
    ReversibleIs(w.store.entries[id].write);
  }

  /** After the gate an execution fails exactly on a snapshot that cannot be saved, and then before any call,
      or on the write itself. The action stays, with the count that was typed; nothing is audited; and of a
      failed write a snapshot is left exactly if it was needed and could not be dropped. */
  lemma FailureRecords(w: World, id: ActionId, count: Option<int>, io: ExecIo)
    requires id in w.store.entries && w.store.entries[id].pattern.None?
    requires Execute(w, id, count, io).2 !in {CountNeeded, WrongCount}
    ensures var p := w.store.entries[id];
            var (w', _, result) := Execute(w, id, count, io);
            var gated := if p.tier.Some? then p.tier.value == FULL_GATE else p.write.risk == Destructive || p.required > 1;
            && (result == SnapshotFailed <==> p.write.intent != OtherWrite && !io.snapshotSaved)
            && (result == SnapshotFailed ==> w' == w.(store := w'.store))
            && (result in {SnapshotFailed, WriteFailed} ==>
                  w'.audit == w.audit && w'.store.nextId == w.store.nextId
                  && w'.store.entries == w.store.entries[id := p.(confirmed := if gated && count.Some? then count else p.confirmed)])
            && (result == WriteFailed && p.write.intent == OtherWrite ==> w'.snapshots == w.snapshots)
            && (result == WriteFailed && p.write.intent != OtherWrite && io.snapshotDropped ==>
                  w'.snapshots == w.snapshots - {id})
            && (result == WriteFailed && p.write.intent != OtherWrite && !io.snapshotDropped ==>
                  id in w'.snapshots && w'.snapshots == w.snapshots[id := w'.snapshots[id]]
                  && SnapshotHolds(w'.snapshots[id], p.write, io.(idReturned := false)))
  {
    ReversibleIs(w.store.entries[id].write);
  }

  /** After an approved pattern: the portal and the lists are the batch's, the snapshot holds the originals of
      what was applied, if there are any and it could be saved, and the action is gone. */
  ghost predicate PatternDone(w: World, w': World, id: ActionId, p: Pending, io: ExecIo)
    requires p.pattern.Some?
  {
    var b := Pattern.Run(w.portal, p.pattern.value, Turns(io.turns, |p.pattern.value|));
    && w'.portal == b.portal && w'.audit == w.audit + RecordAudits(id, b.applied, io.auditSaved)
    && w'.store.entries == w.store.entries - {id} && w'.store.nextId == w.store.nextId
    && w'.snapshots == (if io.snapshotSaved && exists r :: r in b.originals
                        then w.snapshots[id := Snapshot(Update, true, p.write.payload.objectType, b.originals, [])]
                        else w.snapshots)
  }

  lemma PatternRecords(w: World, id: ActionId, count: Option<int>, io: ExecIo)
    requires id in w.store.entries && w.store.entries[id].pattern.Some? && Execute(w, id, count, io).2 == Success
    ensures PatternDone(w, Execute(w, id, count, io).0, id, w.store.entries[id], io)
  {
    var p := w.store.entries[id];
    PerformedPattern(w, id, p, io);
    if count.Some? {
      var w1 := w.(store := Confirmed(w.store, id, count.value));
      PerformedPattern(w1, id, p, io);
      assert w1.store.entries - {id} == w.store.entries - {id};
    }
  }

  lemma PerformedPattern(w: World, id: ActionId, p: Pending, io: ExecIo)
    requires id in w.store.entries && p.pattern.Some?
    ensures PatternDone(w, Perform(w, id, p, io).0, id, p, io)
  {
    var b := Pattern.Run(w.portal, p.pattern.value, Turns(io.turns, |p.pattern.value|));
    if b.originals != map[] { var r :| r in b.originals; }
  }

  ghost predicate SnapshotHolds(s: Snapshot, w: Write, io: ExecIo) {
    && s.intent == w.intent && (s.undoable <==> Reversible(w)) && s.target == w.payload.objectType && s.originals == w.originals
    && s.createdIds == (if w.intent == Create && io.idReturned && io.createdSaved then [io.createdId] else [])
  }

  /** Undo refuses what is not undoable, a delete or a merge, and what has nothing to replay. */
  lemma UndoRefuses(w: World, id: ActionId, acked: set<RecordId>, raised: bool, replies: seq<Undo.DeleteReply>)
    requires id in w.snapshots
    requires !w.snapshots[id].undoable || w.snapshots[id].intent in {Delete, Merge, OtherWrite}
          || (w.snapshots[id].intent == Update && w.snapshots[id].originals == map[])
          || (w.snapshots[id].intent == Create && w.snapshots[id].createdIds == [])
    ensures UndoAction(w, id, acked, raised, replies) == (w, [])
  {
  }

  /** The audit entries of a pattern batch, all saved: one per applied record, in order. */
  lemma {:induction false} AuditsEach(id: ActionId, records: seq<RecordId>)
    ensures |RecordAudits(id, records, [])| == |records|
    ensures forall i :: 0 <= i < |records| ==> RecordAudits(id, records, [])[i] == ApprovedRecord(id, records[i])
  {
    if records != [] { AuditsEach(id, records[..|records| - 1]); }
  }

  /** A record has its audit entry exactly if that could be saved. */
  lemma {:induction false} AuditsSaved(id: ActionId, records: seq<RecordId>, saved: seq<bool>, i: nat)
    requires i < |records| && forall j, k :: 0 <= j < k < |records| ==> records[j] != records[k]
    ensures ApprovedRecord(id, records[i]) in RecordAudits(id, records, saved) <==> i >= |saved| || saved[i]
  {
    var n := |records| - 1;
    if i < n {
      AuditsSaved(id, records[..n], saved, i);
    } else {
      AuditsOf(id, records[..n], saved, records[n]);
    }
  }

  lemma {:induction false} AuditsOf(id: ActionId, records: seq<RecordId>, saved: seq<bool>, r: RecordId)
    requires r !in records
    ensures ApprovedRecord(id, r) !in RecordAudits(id, records, saved)
  {
    if records != [] { AuditsOf(id, records[..|records| - 1], saved, r); }
  }

  /** `confirm` prompts exactly a destructive write or one of several records: with a wrong count it then
      changes nothing, with the right one it records it and approves. Any other it approves at once. */
  lemma ConfirmExactly(w: World, id: ActionId, count: int, io: ExecIo)
    requires id in w.store.entries
    ensures var p := w.store.entries[id];
            if p.write.risk == Destructive || p.required > 1 then
              if count != p.required then Confirm(w, id, count, io) == (w, [], WrongCount)
              else
                var w1 := w.(store := w.store.(entries := w.store.entries[id := p.(confirmed := Some(count))]));
                var (w2, more, result) := Execute(w1, id, None, io);
                Confirm(w, id, count, io) == (w2, [CountSupplied(id, count)] + more, result)
            else Confirm(w, id, count, io) == Execute(w, id, None, io)
  {
  }

  /** What an undo of an update does to a captured property of a captured record: when the snapshot is
      consumed the value is back, if HubSpot takes it; and it is never touched, if HubSpot does not. */
  lemma UndoRestoresExactly(w: World, id: ActionId, acked: set<RecordId>, raised: bool, replies: seq<Undo.DeleteReply>,
                            r: RecordId, k: Prop)
    requires id in w.snapshots && w.snapshots[id].undoable && w.snapshots[id].intent == Update
    requires r in w.snapshots[id].originals && k in w.snapshots[id].originals[r]
    ensures var w' := UndoAction(w, id, acked, raised, replies).0;
            && (id !in w'.snapshots && Undo.Restorable(w.schema, k) ==>
                  r in w'.portal && Lookup(w'.portal[r], k) == Get(w.snapshots[id].originals[r], k))
            && (!Undo.Restorable(w.schema, k) && r in w.portal ==>
                  r in w'.portal && Lookup(w'.portal[r], k) == Lookup(w.portal[r], k))
  {
    var originals := w.snapshots[id].originals;
    var w' := UndoAction(w, id, acked, raised, replies).0;
    var done := acked * Undo.Needed(w.schema, originals) * w.portal.Keys;
    assert originals != map[];
    assert Undo.UndoAttempt(w.portal, w.schema, originals, done, w'.portal, id !in w'.snapshots);
    Undo.AttemptRestores(w.portal, w.schema, originals, done, w'.portal, id !in w'.snapshots, r, k);
  }

  // ----- Registering -----

  /** A new schedule is put in front with its clock seeded and no batch, if its expression compiles and
      every step names a tool; else nothing changes. */
  lemma RegisteredExactly(w: World, sid: ScheduleId, cron: seq<Field>, plan: Plan)
    requires FreshSchedule(w, sid)
    ensures var w' := Apply(w, AddSchedule(sid, cron, plan)).0;
            if Compile(cron).Ok? && forall s <- plan.steps :: s.toolName.Some? then
              && w' == w.(schedules := w'.schedules) && |w'.schedules| == |w.schedules| + 1 && w'.schedules[1..] == w.schedules
              && w'.schedules[0] == Sweep.Schedule(sid, cron, plan, Some(w.now), None)
            else w' == w
  {
  }

  // ----- Reaping -----

  /** The reaper removes exactly the previews without an origin that are older than twenty-four hours. */
  lemma ReapedExactly(w: World, id: ActionId)
    requires id in w.store.entries
    ensures var w' := Apply(w, ReapPending).0;
            && (id in w'.store.entries <==>
                  w.store.entries[id].origin.Some? || Micros(w.now) - Micros(w.store.entries[id].storedAt) <= 86_400_000_000)
            && (id in w'.store.entries ==> w'.store.entries[id] == w.store.entries[id])
  {
  }

  // ----- Which records a rule matches -----

  /** The objects among the items, in order. */
  function Objects(records: seq<Rec>): (r: seq<Rec>)
    ensures forall x <- r :: x.Rec?
  {
    if records == [] then []
    else Objects(records[..|records| - 1]) + if records[|records| - 1].Rec? then [records[|records| - 1]] else []
  }

  /** Items that are no objects match nothing and displace nothing. */
  lemma {:induction false} MatchedObjects(records: seq<Rec>, originals: map<RecordId, Values>)
    ensures Matched(records, originals) == Matched(Objects(records), originals)
    decreases |records|
  {
    if records != [] {
      var n := |records| - 1;
      MatchedObjects(records[..n], originals);
      if records[n].Rec? {
        assert Objects(records)[..|Objects(records)| - 1] == Objects(records[..n]);
      } else {
        assert Objects(records) == Objects(records[..n]);
      }
    }
  }
}

/** The risk-tiered approval policy (src/hubspot_agent/policy.py) and the preview it reads
    (src/hubspot_agent/handlers.py, `_build_tool_preview`; src/hubspot_agent/snapshot.py, `is_undoable`). */
module Policy {
  import opened Wrappers
  import opened Records
  import opened Tools

  datatype Tier = AUTO | CONFIRM | FULL_GATE

  // ----- The effective policy -----

  datatype ApprovalPolicy = ApprovalPolicy(
    autoApplyMaxRecords: int, patternConfirmThreshold: int, scheduleQueueTtlDays: nat,
    sensitiveProperties: set<Prop>, sensitiveIsFullGate: bool, neverAutoTools: set<string>)

  /** One key of an override file: missing, of the wrong shape, or usable. */
  datatype Setting<+T> = Missing | Malformed | Given(value: T)

  datatype Override = Override(
    maxRecords: Setting<int>, patternThreshold: Setting<int>, queueTtlDays: Setting<int>,
    sensitive: Setting<set<Prop>>, sensitiveAction: Setting<string>, neverAuto: Setting<set<string>>)

  const SHIPPED_SENSITIVE: set<Prop> := {"amount", "dealstage", "hubspot_owner_id", "lifecyclestage"}
  const SHIPPED_NEVER_AUTO: set<string> :=
    {"hubspot_create_workflow", "hubspot_update_workflow", "hubspot_toggle_workflow",
     "hubspot_enroll_workflow", "hubspot_create_workflow_from_blueprint"}

  /** Scalars are overridden and fall back when malformed; the two safety lists only grow. */
  function Coerce(raw: Override): ApprovalPolicy {
    var maxRecords := if raw.maxRecords.Given? then raw.maxRecords.value else 100;
    var threshold := match raw.patternThreshold
      case Given(n) => n
      case Missing => 100
      case Malformed => maxRecords;
    var ttl := if raw.queueTtlDays.Given? && raw.queueTtlDays.value >= 0 then raw.queueTtlDays.value else 7;
    ApprovalPolicy(
      maxRecords, threshold, ttl,
      SHIPPED_SENSITIVE + if raw.sensitive.Given? then raw.sensitive.value else {},
      raw.sensitiveAction == Given("full_gate"),
      SHIPPED_NEVER_AUTO + if raw.neverAuto.Given? then raw.neverAuto.value else {})
  }

  // ----- What a write would do -----

  /** An item of a `records` or `inputs` list; `NotAnObject` is any item that is no JSON object. */
  datatype Rec = Rec(id: RecordId, properties: Option<Values>) | NotAnObject

  /** `target` is `object_id` or `primary_object_id`, `merged` is `object_id_to_merge`. */
  datatype Payload = Payload(
    objectType: Option<string>, target: Option<RecordId>, merged: Option<RecordId>, properties: Option<Values>, records: Option<seq<Rec>>, inputs: Option<seq<Rec>>,
    members: Option<nat>, objectIds: Option<nat>, ids: Option<nat>)

  function ImpactCount(p: Payload): nat {
    if p.records.Some? then |p.records.value|
    else if p.inputs.Some? then |p.inputs.value|
    else if p.members.Some? then p.members.value
    else if p.objectIds.Some? then p.objectIds.value
    else if p.ids.Some? then p.ids.value
    else 1
  }

  function KeysOf(items: Option<seq<Rec>>): set<Prop> {
    if items.None? then {}
    else set r, k | r in items.value && r.Rec? && r.properties.Some? && k in r.properties.value :: k
  }

  /** Every property a write would set, in the single and the bulk shapes. */
  method IterPropertyKeys(p: Payload) returns (keys: set<Prop>)
    ensures keys == PropertyKeys(p)
  {
    keys := {};
    if p.properties.Some? {
      keys := keys + p.properties.value.Keys;
    }
    var lists := [p.records, p.inputs];
    ghost var own := keys;
    for l := 0 to 2
      invariant keys == own + (if l >= 1 then KeysOf(p.records) else {}) + (if l >= 2 then KeysOf(p.inputs) else {})
    {
      if lists[l].Some? {
        var items := lists[l].value;
        ghost var before := keys;
        for i := 0 to |items|
          invariant keys == before + KeysOf(Some(items[..i]))
        {
          assert items[..i + 1] == items[..i] + [items[i]];
          if items[i].Rec? && items[i].properties.Some? {
            keys := keys + items[i].properties.value.Keys;
          }
        }
        assert items[..|items|] == items;
      }
    }
  }

  function PropertyKeys(p: Payload): set<Prop> {
    (if p.properties.Some? then p.properties.value.Keys else {}) + KeysOf(p.records) + KeysOf(p.inputs)
  }

  /** A tool call: the tool, the HTTP verb of a raw call, the scopes that the registry has for a tool
      outside the object family, whether it names it a write outright, and the input. */
  datatype Call = Call(tool: string, verb: string, registered: set<string>, listed: bool, payload: Payload)

  function ScopesOf(c: Call): set<string> {
    RequiredScopes(c.tool, c.payload.objectType, c.registered)
  }

  predicate IsWrite(c: Call) { IsWriteTool(c.tool, c.verb, ScopesOf(c), c.listed) }

  /** What is stored of a pending write, and what `classify_write` reads. */
  datatype Write = Write(tool: string, risk: Risk, intent: Intent, impact: nat,
                         originals: map<RecordId, Values>, payload: Payload)

  /** The write that a call is staged as, with the pre-images that its preview captured. */
  function WriteOf(c: Call, originals: map<RecordId, Values>): Write {
    Write(c.tool, RiskLevel(c.tool, c.verb, ScopesOf(c)), IntentType(c.tool, c.verb), ImpactCount(c.payload), originals, c.payload)
  }

  /** Risk, intent and impact are those of some call of this tool with this input. */
  ghost predicate Genuine(w: Write) {
    exists verb, registered, listed :: w == WriteOf(Call(w.tool, verb, registered, listed, w.payload), w.originals)
  }

  /** What a genuine write of an object tool means to do; another tool is none of them. */
  lemma GenuineIntent(w: Write)
    requires Genuine(w)
    ensures w.impact == ImpactCount(w.payload)
    ensures match KindOf(w.tool)
            case CreateObject => w.intent.Create?
            case DeleteObject => w.intent.Delete? && w.risk.Destructive?
            case MergeObjects => w.intent.Merge? && w.risk.Destructive?
            case OtherTool => true
            case _ => w.intent.Update?
  {
    var verb, registered, listed :| w == WriteOf(Call(w.tool, verb, registered, listed, w.payload), w.originals);
    IntentOfKind(w.tool, verb);
    ObjectToolsWrite(w.tool, verb, w.payload.objectType, registered, listed);
  }

  predicate IsUndoable(intent: Intent, originals: map<RecordId, Values>) {
    intent.Create? || (intent.Update? && originals != map[])
  }

  /** The payload's property keys and those of the captured originals. */
  function TouchedKeys(w: Write): set<Prop> {
    PropertyKeys(w.payload) + set id, k | id in w.originals && k in w.originals[id] :: k
  }

  function ClassifyWrite(w: Write, policy: ApprovalPolicy): Tier {
    var impact := if w.impact == 0 then 1 else w.impact;
    if w.risk.Destructive? then FULL_GATE
    else if !IsUndoable(w.intent, w.originals) then FULL_GATE
    else if w.tool in policy.neverAutoTools then CONFIRM
    else if TouchedKeys(w) * policy.sensitiveProperties != {} then
      if policy.sensitiveIsFullGate then FULL_GATE else CONFIRM
    else if w.intent.Update? && |w.originals| < impact then CONFIRM
    else if impact > policy.autoApplyMaxRecords then CONFIRM
    else AUTO
  }

  // ----- What no override can do -----

  /** A stricter policy lets fewer writes through unasked. */
  lemma StricterPolicyFewerAuto(w: Write, lax: ApprovalPolicy, strict: ApprovalPolicy)
    requires lax.sensitiveProperties <= strict.sensitiveProperties
    requires lax.neverAutoTools <= strict.neverAutoTools
    requires strict.autoApplyMaxRecords <= lax.autoApplyMaxRecords
    ensures ClassifyWrite(w, strict) == AUTO ==> ClassifyWrite(w, lax) == AUTO
  {
    if TouchedKeys(w) * lax.sensitiveProperties != {} {
      assert TouchedKeys(w) * lax.sensitiveProperties <= TouchedKeys(w) * strict.sensitiveProperties;
    }
  }

  function Rank(t: Tier): nat {
    match t
    case AUTO => 0
    case CONFIRM => 1
    case FULL_GATE => 2
  }

  /** Newly listing a tool as never-auto takes its sensitive writes out of the full gate: the list is
      looked at first, and it only asks for a confirmation. */
  predicate NewlyListed(w: Write, lax: ApprovalPolicy, strict: ApprovalPolicy) {
    && w.tool in strict.neverAutoTools && w.tool !in lax.neverAutoTools
    && lax.sensitiveIsFullGate && TouchedKeys(w) * lax.sensitiveProperties != {}
    && !w.risk.Destructive? && IsUndoable(w.intent, w.originals)
  }

  /** Tiers grow with the policy's strictness exactly outside that case. */
  lemma StricterPolicyHigherTierIff(w: Write, lax: ApprovalPolicy, strict: ApprovalPolicy)
    requires lax.sensitiveProperties <= strict.sensitiveProperties
    requires lax.neverAutoTools <= strict.neverAutoTools
    requires strict.autoApplyMaxRecords <= lax.autoApplyMaxRecords
    requires lax.sensitiveIsFullGate ==> strict.sensitiveIsFullGate
    ensures Rank(ClassifyWrite(w, lax)) <= Rank(ClassifyWrite(w, strict)) <==> !NewlyListed(w, lax, strict)
  {
    assert TouchedKeys(w) * lax.sensitiveProperties <= TouchedKeys(w) * strict.sensitiveProperties;
  }

  /** An instance: under "sensitive is full_gate", listing `hubspot_update_object` as never-auto takes a
      change of its amount from FULL_GATE to CONFIRM. */
  lemma NewListingLowersTier(lax: ApprovalPolicy, w: Write)
    requires lax.sensitiveProperties == SHIPPED_SENSITIVE && lax.sensitiveIsFullGate && lax.neverAutoTools == {}
    requires w.tool == UPDATE_OBJECT && !w.risk.Destructive? && w.intent.Update?
    requires w.originals == map["1" := map["amount" := Text("5")]]
    ensures ClassifyWrite(w, lax) == FULL_GATE && ClassifyWrite(w, lax.(neverAutoTools := {UPDATE_OBJECT})) == CONFIRM
  {
    assert "1" in w.originals && "amount" in w.originals["1"];
    assert "amount" in TouchedKeys(w) * lax.sensitiveProperties;
  }

  /** Whatever a portal's policy file says, a write goes through unasked only if it is no delete or
      merge, is undoable, is no shipped side-effect tool and touches no shipped sensitive property. */
  lemma NoOverrideWeakensTheGate(w: Write, raw: Override)
    requires ClassifyWrite(w, Coerce(raw)) == AUTO
    ensures !w.risk.Destructive? && (w.intent.Create? || w.intent.Update?)
    ensures w.tool !in SHIPPED_NEVER_AUTO
    ensures TouchedKeys(w) !! SHIPPED_SENSITIVE
    ensures w.intent.Update? ==> |w.originals| > 0 && |w.originals| >= w.impact
  {
    assert TouchedKeys(w) * Coerce(raw).sensitiveProperties == {};
    if w.originals == map[] { assert |w.originals| == 0; }
    if |w.originals| == 0 { assert w.originals == map[]; }
  }

  // ----- The bulk preview -----

  /** A successful `hubspot_get_object`: the record's id and the properties it returned. */
  datatype GetReply = GetReply(id: RecordId, properties: Values)

  /** The originals captured for the records so far; a read that fails captures nothing. */
  function Captured(records: seq<Rec>, replies: seq<Option<GetReply>>): map<RecordId, Values>
    requires |replies| == |records|
    decreases |records|
  {
    if records == [] then map[]
    else
      var n := |records| - 1;
      var before := Captured(records[..n], replies[..n]);
      if records[n].Rec? && records[n].id != "" && replies[n].Some?
      then before[replies[n].value.id := replies[n].value.properties]
      else before
  }

  method BuildBulkPreview(objectType: string, records: seq<Rec>, replies: seq<Option<GetReply>>)
    returns (originals: map<RecordId, Values>, warning: bool)
    requires |replies| == |records|
    ensures originals == if objectType == "" then map[] else Captured(records, replies)
    // A preview that warns is never undoable, so never goes through unasked.
    ensures warning ==> !IsUndoable(Update, originals)
    ensures warning <==> originals == map[] && objectType != "" && exists r <- records :: r.Rec? && r.id != ""
  {
    originals := map[];
    var fetchesAttempted := 0;
    for i := 0 to |records|
      invariant originals == if objectType == "" then map[] else Captured(records[..i], replies[..i])
      invariant fetchesAttempted >= 0
      invariant fetchesAttempted > 0 <==> objectType != "" && exists r <- records[..i] :: r.Rec? && r.id != ""
    {
      assert records[..i + 1] == records[..i] + [records[i]];
      assert records[..i + 1][..i] == records[..i] && replies[..i + 1][..i] == replies[..i];
      var rec := records[i];
      if rec.Rec? && rec.id != "" && objectType != "" {
        fetchesAttempted := fetchesAttempted + 1;
        if replies[i].Some? {
          originals := originals[replies[i].value.id := replies[i].value.properties];
        }
      }
    }
    assert records[..|records|] == records && replies[..|replies|] == replies;
    warning := fetchesAttempted > 0 && originals == map[];
  }

  /** A pre-image is kept exactly of the records that a read of an object with an id returned, and it is
      that of the last such read. */
  lemma {:induction false} CapturedExactly(records: seq<Rec>, replies: seq<Option<GetReply>>, id: RecordId)
    requires |replies| == |records|
    ensures id in Captured(records, replies) <==> exists i :: 0 <= i < |records| && ReadsAs(records, replies, i, id)
    ensures forall i :: 0 <= i < |records| && ReadsAs(records, replies, i, id)
                        && (forall j :: i < j < |records| ==> !ReadsAs(records, replies, j, id)) ==>
              id in Captured(records, replies) && Captured(records, replies)[id] == replies[i].value.properties
    decreases |records|
  {
    if records != [] {
      var n := |records| - 1;
      CapturedExactly(records[..n], replies[..n], id);
      forall i | 0 <= i < n
        ensures ReadsAs(records[..n], replies[..n], i, id) <==> ReadsAs(records, replies, i, id)
      {
        assert records[..n][i] == records[i] && replies[..n][i] == replies[i];
      }
      if ReadsAs(records, replies, n, id) {
        assert id in Captured(records, replies);
      } else {
        assert id in Captured(records, replies) <==> id in Captured(records[..n], replies[..n]);
        forall i | 0 <= i < |records| && ReadsAs(records, replies, i, id)
          ensures i < n && ReadsAs(records[..n], replies[..n], i, id)
        {
        }
      }
    }
  }

  ghost predicate ReadsAs(records: seq<Rec>, replies: seq<Option<GetReply>>, i: int, id: RecordId)
    requires |replies| == |records| && 0 <= i < |records|
  {
    records[i].Rec? && records[i].id != "" && replies[i].Some? && replies[i].value.id == id
  }
}

/** What the agent makes of a tool call before it looks at any policy: its kind, its scopes, whether it
    writes, what it intends and how risky it is (src/hubspot_agent/handlers.py, `_is_write_tool`,
    `_tool_risk_level`, `_tool_intent_type`; src/hubspot_agent/scope_registry.py). */
module Tools {
  import opened Wrappers

  datatype Risk = Low | Medium | High | Destructive
  datatype Intent = Create | Update | Delete | Merge | OtherWrite

  // ----- Text -----

  predicate Contains(text: string, part: string) {
    exists i :: 0 <= i <= |text| - |part| && text[i..][..|part|] == part
  }

  predicate EndsWith(text: string, suffix: string) {
    |text| >= |suffix| && text[|text| - |suffix|..] == suffix
  }

  // ----- The object tools -----

  const UPDATE_OBJECT := "hubspot_update_object"
  const BULK_UPDATE := "hubspot_bulk_update_objects"
  const BATCH_UPSERT := "hubspot_batch_upsert_objects"
  const CREATE_OBJECT := "hubspot_create_object"
  const DELETE_OBJECT := "hubspot_delete_object"
  const MERGE_OBJECTS := "hubspot_merge_objects"
  const RAW_API := "hubspot_raw_api"

  datatype Kind = UpdateObject | BulkUpdate | BatchUpsert | CreateObject | DeleteObject | MergeObjects | OtherTool

  function KindOf(tool: string): Kind {
    if tool == UPDATE_OBJECT then UpdateObject
    else if tool == BULK_UPDATE then BulkUpdate
    else if tool == BATCH_UPSERT then BatchUpsert
    else if tool == CREATE_OBJECT then CreateObject
    else if tool == DELETE_OBJECT then DeleteObject
    else if tool == MERGE_OBJECTS then MergeObjects
    else OtherTool
  }

  // ----- Scopes -----

  const STANDARD_OBJECT_TYPES: set<string> := {"contacts", "companies", "deals", "tickets"}

  function ObjectScopes(actions: set<string>, objectType: Option<string>): set<string> {
    var types := if objectType.Some? && objectType.value != "" then {objectType.value} else STANDARD_OBJECT_TYPES;
    set t, a | t in types && a in actions :: "crm.objects." + t + "." + a
  }

  /** `get_required_scopes`: the object tools by their registry entries, any other tool as `registered`. */
  function RequiredScopes(tool: string, objectType: Option<string>, registered: set<string>): set<string> {
    match KindOf(tool)
    case DeleteObject => ObjectScopes({"write", "delete"}, objectType)
    case MergeObjects => ObjectScopes({"write", "delete"}, objectType)
    case OtherTool => registered
    case _ => ObjectScopes({"write"}, objectType)
  }

  // ----- Classification -----

  /** `listed`: the registry names the tool a write outright (`WRITE_TOOLS`). */
  predicate IsWriteTool(tool: string, verb: string, scopes: set<string>, listed: bool) {
    if tool == RAW_API then verb in {"POST", "PUT", "PATCH", "DELETE"}
    else listed || exists s <- scopes :: EndsWith(s, ".write") || EndsWith(s, ".delete")
  }

  function RiskLevel(tool: string, verb: string, scopes: set<string>): Risk {
    if tool == RAW_API && verb == "DELETE" then Destructive
    else if exists s <- scopes :: EndsWith(s, ".delete") then Destructive
    else Medium
  }

  /** The intent is read off the tool's name. */
  function IntentType(tool: string, verb: string): Intent {
    if tool == RAW_API then if verb == "DELETE" then Delete else OtherWrite
    else if Contains(tool, "delete") then Delete
    else if Contains(tool, "create") then Create
    else if Contains(tool, "update") || Contains(tool, "upsert") || Contains(tool, "bulk") then Update
    else if Contains(tool, "merge") then Merge
    else OtherWrite
  }

  // ----- What this comes to for the object tools -----

  lemma ContainsAt(text: string, part: string, i: nat)
    requires i + |part| <= |text| && forall j :: 0 <= j < |part| ==> text[i + j] == part[j]
    ensures Contains(text, part)
  {
    assert text[i..][..|part|] == part;
  }

  /** A text in which the part's first two letters never meet does not contain it. */
  lemma ContainsNot(text: string, part: string)
    requires |part| >= 2
    requires forall i :: 0 <= i < |text| - 1 ==> text[i] != part[0] || text[i + 1] != part[1]
    ensures !Contains(text, part)
  {
    forall i | 0 <= i <= |text| - |part|
      ensures text[i..][..|part|] != part
    {
      var cut := text[i..][..|part|];
      assert cut[0] == text[i] && cut[1] == text[i + 1];
    }
  }

  lemma UpdateIntent(verb: string)
    ensures IntentType(UPDATE_OBJECT, verb) == Update
  {
    UpdateHasNone();
    ContainsAt(UPDATE_OBJECT, "update", 8);
    assert |UPDATE_OBJECT| == 21 && |RAW_API| == 15;
  }

  lemma UpdateHasNone()
    ensures !Contains(UPDATE_OBJECT, "delete") && !Contains(UPDATE_OBJECT, "create")
  {
    ContainsNot(UPDATE_OBJECT, "delete");
    ContainsNot(UPDATE_OBJECT, "create");
  }

  lemma BulkIntent(verb: string)
    ensures IntentType(BULK_UPDATE, verb) == Update
  {
    ContainsNot(BULK_UPDATE, "delete");
    ContainsNot(BULK_UPDATE, "create");
    ContainsAt(BULK_UPDATE, "bulk", 8);
  }

  lemma UpsertIntent(verb: string)
    ensures IntentType(BATCH_UPSERT, verb) == Update
  {
    ContainsNot(BATCH_UPSERT, "delete");
    ContainsNot(BATCH_UPSERT, "create");
    ContainsAt(BATCH_UPSERT, "upsert", 14);
  }

  lemma CreateIntent(verb: string)
    ensures IntentType(CREATE_OBJECT, verb) == Create
  {
    ContainsNot(CREATE_OBJECT, "delete");
    ContainsAt(CREATE_OBJECT, "create", 8);
    assert |RAW_API| == 15;
  }

  lemma DeleteIntent(verb: string)
    ensures IntentType(DELETE_OBJECT, verb) == Delete
  {
    ContainsAt(DELETE_OBJECT, "delete", 8);
    assert |RAW_API| == 15;
  }

  lemma MergeIsNoUpdate()
    ensures !Contains(MERGE_OBJECTS, "update") && !Contains(MERGE_OBJECTS, "upsert") && !Contains(MERGE_OBJECTS, "bulk")
  {
    ContainsNot(MERGE_OBJECTS, "update");
    ContainsNot(MERGE_OBJECTS, "upsert");
    ContainsNot(MERGE_OBJECTS, "bulk");
  }

  lemma MergeIntent(verb: string)
    ensures IntentType(MERGE_OBJECTS, verb) == Merge
  {
    MergeIsNoUpdate();
    ContainsNot(MERGE_OBJECTS, "delete");
    ContainsNot(MERGE_OBJECTS, "create");
    ContainsAt(MERGE_OBJECTS, "merge", 8);
    assert |RAW_API| == 15;
  }

  lemma ToolKinds()
    ensures KindOf(UPDATE_OBJECT) == UpdateObject && KindOf(BULK_UPDATE) == BulkUpdate && KindOf(BATCH_UPSERT) == BatchUpsert
    ensures KindOf(CREATE_OBJECT) == CreateObject && KindOf(DELETE_OBJECT) == DeleteObject && KindOf(MERGE_OBJECTS) == MergeObjects
    ensures KindOf(RAW_API) == OtherTool
  {
    assert UPDATE_OBJECT[8] == 'u' && BULK_UPDATE[9] == 'u' && BATCH_UPSERT[9] == 'a' && CREATE_OBJECT[8] == 'c'
        && DELETE_OBJECT[8] == 'd' && MERGE_OBJECTS[8] == 'm' && RAW_API[8] == 'r';
    assert |BULK_UPDATE| == 27 && |BATCH_UPSERT| == 28 && |UPDATE_OBJECT| == 21;
  }

  /** The object tools mean what they do; any other tool that reads as a create is none of them. */
  lemma IntentOfKind(tool: string, verb: string)
    ensures match KindOf(tool)
            case CreateObject => IntentType(tool, verb) == Create
            case DeleteObject => IntentType(tool, verb) == Delete
            case MergeObjects => IntentType(tool, verb) == Merge
            case OtherTool => true
            case _ => IntentType(tool, verb) == Update
  {
    match KindOf(tool)
    case UpdateObject => UpdateIntent(verb);
    case BulkUpdate => BulkIntent(verb);
    case BatchUpsert => UpsertIntent(verb);
    case CreateObject => CreateIntent(verb);
    case DeleteObject => DeleteIntent(verb);
    case MergeObjects => MergeIntent(verb);
    case OtherTool =>
  }

  lemma ScopeEnds(t: string, a: string)
    ensures EndsWith("crm.objects." + t + "." + a, "." + a)
  {
    var s := "crm.objects." + t + "." + a;
    assert s == ("crm.objects." + t) + ("." + a);
    assert s[|s| - |"." + a|..] == "." + a;
  }

  lemma HasScope(actions: set<string>, objectType: Option<string>, a: string)
    requires a in actions
    ensures exists s <- ObjectScopes(actions, objectType) :: EndsWith(s, "." + a)
  {
    var t := if objectType.Some? && objectType.value != "" then objectType.value else "contacts";
    ScopeEnds(t, a);
    assert "crm.objects." + t + "." + a in ObjectScopes(actions, objectType);
  }

  /** The object tools are always taken for writes, and deletes and merges for destructive ones. */
  lemma ObjectToolsWrite(tool: string, verb: string, objectType: Option<string>, registered: set<string>, listed: bool)
    ensures !KindOf(tool).OtherTool? ==> IsWriteTool(tool, verb, RequiredScopes(tool, objectType, registered), listed)
    ensures KindOf(tool).DeleteObject? || KindOf(tool).MergeObjects? ==>
              RiskLevel(tool, verb, RequiredScopes(tool, objectType, registered)) == Destructive
  {
    ToolKinds();
    assert "." + "write" == ".write" && "." + "delete" == ".delete";
    if KindOf(tool).DeleteObject? || KindOf(tool).MergeObjects? {
      HasScope({"write", "delete"}, objectType, "delete");
    } else {
      HasScope({"write"}, objectType, "write");
    }
  }

  lemma WriteScope(s: string, objectType: Option<string>)
    requires s in ObjectScopes({"write"}, objectType)
    ensures !EndsWith(s, ".delete")
  {
    assert exists t :: s == "crm.objects." + t + "." + "write";
    assert s[|s| - 1] == 'e' && s[|s| - 2] == 't' && s[|s| - 3] == 'i';
    if |s| >= 7 { assert s[|s| - 7..][4] == s[|s| - 3]; }
    assert ".delete"[4] == 'e';
  }

  /** The scopes of the two update tools end in `.write`, so they are not destructive. */
  lemma UpdateIsNoDelete(tool: string, verb: string, objectType: Option<string>, registered: set<string>)
    requires KindOf(tool).UpdateObject? || KindOf(tool).BulkUpdate?
    ensures RiskLevel(tool, verb, RequiredScopes(tool, objectType, registered)) == Medium
  {
    ToolKinds();
    forall s <- RequiredScopes(tool, objectType, registered)
      ensures !EndsWith(s, ".delete")
    {
      WriteScope(s, objectType);
    }
  }
}

/** What executing a stored write does to the portal: the source replays the stored payload verbatim
    (src/hubspot_agent/handlers.py, `execute_pending_write`; src/hubspot_agent/tools/objects.py and
    hygiene.py), and HubSpot decides whether, and for which records, it lands. */
module Effects {
  import opened Wrappers
  import opened Records
  import opened Tools
  import opened Policy
  import Pattern

  /** How the calls of a tool go: HubSpot takes them, refuses every one of them with an error, or one
      raises (a timeout, a lost connection) after so many chunks of a batch were sent. */
  datatype CallReply = Accepts | Refuses | Raises(chunks: nat)

  /** How the outside world answers an execution: whether the snapshot, the created id and the audit
      entries could be saved and a useless snapshot dropped, how the calls go and which records of a
      bulk call land, the id of a created record and whether the response carried it, what HubSpot
      itself fills in, what a tool of unknown reach leaves behind, and the turns of a pattern batch. */
  datatype ExecIo = ExecIo(
    snapshotSaved: bool, snapshotDropped: bool, reply: CallReply, lands: seq<bool>,
    createdId: RecordId, idReturned: bool, createdSaved: bool, filledIn: Record, elsewhere: Portal,
    turns: seq<Pattern.Turn>, auditSaved: seq<bool>)

  /** An answer that is not spelled out is yes. */
  predicate Answer(answers: seq<bool>, i: nat) { i < |answers| ==> answers[i] }

  /** The created id, as far as undo and the loop will ever know it. */
  function RecordedIds(io: ExecIo): seq<RecordId> {
    if io.idReturned && io.createdSaved then [io.createdId] else []
  }

  /** The `/batch/update` calls: each record in order, as far as it lands. */
  function BulkApply(portal: Portal, records: seq<Rec>, lands: seq<bool>): (after: Portal)
    ensures after.Keys == portal.Keys
    decreases |records|
  {
    if records == [] then portal
    else
      var n := |records| - 1;
      var before := BulkApply(portal, records[..n], lands);
      var r := records[n];
      if r.Rec? && r.properties.Some? && r.id in portal && Answer(lands, n)
      then before[r.id := Patch(before[r.id], r.properties.value)] else before
  }

  const BATCH_SIZE := 100

  /** How many of `n` records were sent when the chunk after the first `chunks` raises. */
  function SentBefore(n: nat, chunks: nat): (sent: nat)
    ensures sent <= n && (n <= BATCH_SIZE ==> sent == 0)
  {
    if chunks * BATCH_SIZE < n then chunks * BATCH_SIZE else 0
  }

  /** `_validate_object_type`; a merge without a type is one of contacts. */
  predicate TypeOk(types: set<string>, w: Write) {
    match w.payload.objectType
    case Some(t) => t in types
    case None => KindOf(w.tool).MergeObjects?
  }

  /** The portal after the tool was invoked, and whether it answered without an error. */
  datatype Invoked = Invoked(portal: Portal, ok: bool)

  /** A tool of one call fails whole or not at all. The two batch tools report refused records in their
      result, never as an error, and when a later chunk raises, the chunks before it stay written. */
  function Invoke(types: set<string>, portal: Portal, w: Write, io: ExecIo): Invoked {
    var p := w.payload;
    if !KindOf(w.tool).OtherTool? && !TypeOk(types, w) then Invoked(portal, false)
    else match KindOf(w.tool)
      case UpdateObject =>
        if io.reply.Accepts? && p.target.Some? && p.properties.Some? && p.target.value in portal
        then Invoked(portal[p.target.value := Patch(portal[p.target.value], p.properties.value)], true)
        else Invoked(portal, false)
      case BulkUpdate =>
        if p.records.None? then Invoked(portal, false)
        else (match io.reply
          case Accepts => Invoked(BulkApply(portal, p.records.value, io.lands), true)
          case Refuses => Invoked(portal, true)
          case Raises(chunks) =>
            Invoked(BulkApply(portal, p.records.value[..SentBefore(|p.records.value|, chunks)], io.lands), false))
      case BatchUpsert => if io.reply.Refuses? then Invoked(portal, true) else Invoked(io.elsewhere, io.reply.Accepts?)
      case CreateObject =>
        if io.reply.Accepts? && p.properties.Some? && io.createdId !in portal
        then Invoked(portal[io.createdId := Patch(io.filledIn, p.properties.value)], true) else Invoked(portal, false)
      case DeleteObject =>
        if io.reply.Accepts? && p.target.Some? && p.target.value in portal
        then Invoked(portal - {p.target.value}, true) else Invoked(portal, false)
      case MergeObjects =>
        if io.reply.Accepts? && p.target.Some? && p.merged.Some?
           && p.target.value in portal && p.merged.value in portal && p.target != p.merged
        then Invoked(portal[p.target.value := io.filledIn] - {p.merged.value}, true) else Invoked(portal, false)
      case OtherTool => if io.reply.Refuses? then Invoked(portal, false) else Invoked(io.elsewhere, io.reply.Accepts?)
  }

  // ----- Which records a write can change -----

  /** The reach of the tool is not known. */
  predicate Unbounded(w: Write) { KindOf(w.tool).OtherTool? || KindOf(w.tool).BatchUpsert? }

  /** The write may change this record: it names it, or its tool's reach is not known. */
  ghost predicate MayTouch(w: Write, id: RecordId) {
    match KindOf(w.tool)
    case UpdateObject => w.payload.target == Some(id)
    case BulkUpdate => w.payload.records.Some? && exists r <- w.payload.records.value :: r.Rec? && r.id == id
    case BatchUpsert => true
    case CreateObject => false
    case DeleteObject => w.payload.target == Some(id)
    case MergeObjects => w.payload.target == Some(id) || w.payload.merged == Some(id)
    case OtherTool => true
  }

  /** The write may make this record vanish. */
  predicate MayRemove(w: Write, id: RecordId) {
    match KindOf(w.tool)
    case DeleteObject => w.payload.target == Some(id)
    case MergeObjects => w.payload.merged == Some(id)
    case _ => Unbounded(w)
  }

  ghost predicate SameAt(before: Portal, after: Portal, id: RecordId) {
    Pattern.Lookup2(before, id) == Pattern.Lookup2(after, id)
  }

  lemma {:induction false} BulkElsewhere(portal: Portal, records: seq<Rec>, lands: seq<bool>, id: RecordId)
    requires forall r <- records :: r.Rec? ==> r.id != id
    ensures SameAt(portal, BulkApply(portal, records, lands), id)
    decreases |records|
  {
    if records != [] {
      var n := |records| - 1;
      assert records[n] in records;
      BulkElsewhere(portal, records[..n], lands, id);
    }
  }

  /** A write, completed or broken off, changes only the existing records that its payload names. */
  lemma OnlyNamedRecords(types: set<string>, portal: Portal, w: Write, io: ExecIo, id: RecordId)
    requires !MayTouch(w, id) && id in portal
    ensures SameAt(portal, Invoke(types, portal, w, io).portal, id)
  {
    if KindOf(w.tool).BulkUpdate? && w.payload.records.Some? {
      var records := w.payload.records.value;
      BulkElsewhere(portal, records, io.lands, id);
      if io.reply.Raises? { BulkElsewhere(portal, records[..SentBefore(|records|, io.reply.chunks)], io.lands, id); }
    }
  }

  /** With distinct ids, each record of a bulk update ends as its own patch, or as it was. */
  lemma {:induction false} BulkRecord(portal: Portal, records: seq<Rec>, lands: seq<bool>, i: nat)
    requires i < |records| && records[i].Rec? && records[i].properties.Some? && records[i].id in portal
    requires forall j :: 0 <= j < |records| && j != i ==> records[j].Rec? ==> records[j].id != records[i].id
    ensures BulkApply(portal, records, lands)[records[i].id]
         == if Answer(lands, i) then Patch(portal[records[i].id], records[i].properties.value) else portal[records[i].id]
    decreases |records|
  {
    var n := |records| - 1;
    if i < n {
      assert records[..n][i] == records[i];
      BulkRecord(portal, records[..n], lands, i);
    } else {
      BulkElsewhere(portal, records[..n], lands, records[n].id);
    }
  }

  /** `validate_bulk_update_records`: a bulk write of any other shape is refused before it is staged. */
  predicate WellShaped(w: Write) {
    KindOf(w.tool).BulkUpdate? ==>
      w.payload.records.Some? && w.payload.records.value != [] && forall r <- w.payload.records.value :: ShapedRecord(r)
  }

  predicate ShapedRecord(r: Rec) {
    r.Rec? && r.id != "" && r.properties.Some? && r.properties.value != map[]
  }

  // ----- When a failure is clean -----

  /** Nothing can have been written by the time a call of this write fails. */
  predicate FailsWhole(w: Write) {
    match KindOf(w.tool)
    case BulkUpdate => w.payload.objectType.None? || (w.payload.records.Some? && |w.payload.records.value| <= BATCH_SIZE)
    case BatchUpsert => w.payload.objectType.None?
    case OtherTool => false
    case _ => true
  }

  lemma {:induction false} FirstLands(portal: Portal, records: seq<Rec>, lands: seq<bool>)
    requires records != [] && forall i :: 1 <= i < |records| ==> !Answer(lands, i)
    ensures BulkApply(portal, records, lands) == BulkApply(portal, records[..1], lands)
    decreases |records|
  {
    if |records| > 1 {
      var n := |records| - 1;
      assert records[..n][..1] == records[..1];
      FirstLands(portal, records[..n], lands);
    } else {
      assert records[..1] == records;
    }
  }

  /** A record that the properties really change. */
  function Changeable(properties: Values, k: Prop): (r: Record)
    requires k in properties
    ensures Patch(r, properties) != r
  {
    var r := if Render(properties[k]).None? then map[k := ""] else map[];
    assert Lookup(Patch(r, properties), k) != Lookup(r, k);
    r
  }

  /** A bulk update over one chunk can fail with a record already written. */
  lemma SecondChunkRaises(w: Write) returns (types: set<string>, portal: Portal, io: ExecIo)
    requires KindOf(w.tool).BulkUpdate? && WellShaped(w) && !FailsWhole(w)
    ensures !Invoke(types, portal, w, io).ok && Invoke(types, portal, w, io).portal != portal
  {
    var records := w.payload.records.value;
    var first := records[0];
    assert first in records && ShapedRecord(first);
    var k := SomeKey(first.properties.value);
    var r := Changeable(first.properties.value, k);
    types, portal := {w.payload.objectType.value}, map[first.id := r];
    var lands := [true] + seq(BATCH_SIZE, _ => false);
    io := ExecIo(true, true, Raises(1), lands, "", false, false, map[], map[], [], []);
    var sent := records[..BATCH_SIZE];
    FirstLands(portal, sent, lands);
    assert sent[..1] == [first] && [first][..0] == [];
    assert BulkApply(portal, [first], lands)[first.id] == Patch(r, first.properties.value);
  }

  lemma SomeKey(values: Values) returns (k: Prop)
    requires values != map[]
    ensures k in values
  {
    k :| k in values;
  }

  /** A failed execution changed nothing, so that its snapshot may go, for every portal and every way the
      calls go, if and only if the payload fits one call: a bulk update of at most a hundred records, and no
      tool of unknown reach. */
  lemma FailsWholeIff(w: Write)
    requires WellShaped(w)
    ensures (forall types, portal, io :: !Invoke(types, portal, w, io).ok ==> Invoke(types, portal, w, io).portal == portal)
       <==> FailsWhole(w)
  {
    if Unbounded(w) && !FailsWhole(w) {
      var t := if w.payload.objectType.Some? then w.payload.objectType.value else "";
      var portal: Portal := map[];
      var io := ExecIo(true, true, Raises(0), [], "", false, false, map[], map["1" := map[]], [], []);
      assert "1" in io.elsewhere && "1" !in portal;
      UnboundedBreaks(w, {t}, portal, io);
    } else if !FailsWhole(w) {
      var types, portal, io := SecondChunkRaises(w);
    } else if KindOf(w.tool).BulkUpdate? {
      assert forall portal, lands :: BulkApply(portal, [], lands) == portal;
    }
  }

  lemma UnboundedBreaks(w: Write, types: set<string>, portal: Portal, io: ExecIo)
    requires Unbounded(w) && io.reply.Raises? && io.elsewhere != portal
    requires KindOf(w.tool).OtherTool? || TypeOk(types, w)
    ensures !Invoke(types, portal, w, io).ok && Invoke(types, portal, w, io).portal != portal
  {
  }

  // ----- Once more, with everything landing -----

  /** The value that the last landing record with this id and property sets. */
  function LastSet(records: seq<Rec>, lands: seq<bool>, id: RecordId, k: Prop): Option<Option<string>> {
    if records == [] then None
    else
      var n := |records| - 1;
      var r := records[n];
      if r.Rec? && r.properties.Some? && r.id == id && k in r.properties.value && Answer(lands, n)
      then Some(Render(r.properties.value[k])) else LastSet(records[..n], lands, id, k)
  }

  lemma {:induction false} BulkValue(portal: Portal, records: seq<Rec>, lands: seq<bool>, id: RecordId, k: Prop)
    requires id in portal
    ensures Lookup(BulkApply(portal, records, lands)[id], k) == match LastSet(records, lands, id, k)
              case Some(v) => v
              case None => Lookup(portal[id], k)
    decreases |records|
  {
    if records != [] { BulkValue(portal, records[..|records| - 1], lands, id, k); }
  }

  /** What a part of the records set, all of them set. */
  lemma {:induction false} SetAgain(records: seq<Rec>, m: nat, lands: seq<bool>, id: RecordId, k: Prop)
    requires m <= |records| && LastSet(records[..m], lands, id, k).Some?
    ensures LastSet(records, [], id, k).Some?
    decreases |records|
  {
    var n := |records| - 1;
    if m <= n {
      assert records[..n][..m] == records[..m];
      SetAgain(records[..n], m, lands, id, k);
    } else {
      assert records[..m] == records;
      if LastSet(records[..n], lands, id, k).Some? {
        assert records[..n][..n] == records[..n];
        SetAgain(records[..n], n, lands, id, k);
      }
    }
  }

  /** After a part of a bulk update, the whole of it ends where it would have ended at once. */
  lemma BulkTwice(portal: Portal, records: seq<Rec>, m: nat, lands: seq<bool>)
    requires m <= |records|
    ensures BulkApply(BulkApply(portal, records[..m], lands), records, []) == BulkApply(portal, records, [])
  {
    var part := BulkApply(portal, records[..m], lands);
    forall id <- portal
      ensures BulkApply(part, records, [])[id] == BulkApply(portal, records, [])[id]
    {
      forall k
        ensures Lookup(BulkApply(part, records, [])[id], k) == Lookup(BulkApply(portal, records, [])[id], k)
      {
        BulkValue(part, records, [], id, k);
        BulkValue(portal, records, [], id, k);
        BulkValue(portal, records[..m], lands, id, k);
        if LastSet(records[..m], lands, id, k).Some? { SetAgain(records, m, lands, id, k); }
      }
      SameRecord(BulkApply(part, records, [])[id], BulkApply(portal, records, [])[id]);
    }
  }
}

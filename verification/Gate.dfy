/** Pending previews: how a write is staged (src/hubspot_agent/safety.py, `apply_write`) and kept
    until somebody decides about it (src/hubspot_agent/persistence.py). */
module Gate {
  import opened Wrappers
  import opened Records
  import opened Tools
  import opened Policy
  import opened Cron
  import opened Effects
  import Pattern

  type ActionId = nat
  type ScheduleId = string

  /** A pending preview record. `tier` is absent from records older than tiers. */
  datatype Pending = Pending(
    write: Write, tier: Option<Tier>, required: nat, confirmed: Option<int>,
    pattern: Option<seq<Pattern.Entry>>, loopStep: Option<int>, origin: Option<ScheduleId>, storedAt: Instant)

  /** The pending previews on disk, and the id the next one gets (a fresh uuid4 in the source). */
  datatype Store = Store(entries: map<ActionId, Pending>, nextId: ActionId)

  // ----- Staging a write -----

  const PATTERN_ELIGIBLE_TOOLS: set<string> := {UPDATE_OBJECT, BULK_UPDATE}

  /** `_pattern_eligibility` */
  predicate PatternEligible(w: Write, policy: ApprovalPolicy) {
    && !w.risk.Destructive?
    && w.tool in PATTERN_ELIGIBLE_TOOLS
    && PropertyKeys(w.payload) * policy.sensitiveProperties == {}
  }

  /** The matched set: each object in `records`, with its captured pre-image (or an empty one). */
  function Matched(records: seq<Rec>, originals: map<RecordId, Values>): seq<Pattern.Entry> {
    if records == [] then []
    else
      var n := |records| - 1;
      var before := Matched(records[..n], originals);
      if records[n].NotAnObject? then before
      else
        var id := records[n].id;
        before + [Pattern.Entry(id, if id in originals then originals[id] else map[],
                                if records[n].properties.Some? then records[n].properties.value else map[])]
  }

  function RecordsOf(w: Write): seq<Rec> {
    if w.payload.records.Some? then w.payload.records.value else []
  }

  /** The record that `apply_write` persists; a pattern write is never AUTO. */
  function Staged(w: Write, policy: ApprovalPolicy, pattern: bool, loopStep: Option<int>, now: Instant): Pending {
    if pattern then
      var matched := Matched(RecordsOf(w), w.originals);
      var over := |matched| > policy.patternConfirmThreshold;
      Pending(w, Some(if over then FULL_GATE else CONFIRM), if over then |matched| else 0, None,
              Some(matched), loopStep, None, now)
    else
      Pending(w, Some(ClassifyWrite(w, policy)), w.impact, None, None, loopStep, None, now)
  }

  function Put(st: Store, p: Pending): Store {
    Store(st.entries[st.nextId := p], st.nextId + 1)
  }

  // ----- Deciding about a pending write -----

  /** Whether `approve` demands the typed record count. */
  predicate NeedsCount(p: Pending) {
    match p.tier
    case Some(t) => t == FULL_GATE
    case None => p.write.risk.Destructive? || p.required > 1
  }

  /** Whether the bare `confirm` prompts for the count. */
  predicate PromptsForCount(p: Pending) {
    p.write.risk.Destructive? || p.required > 1
  }

  const REAP_AGE: int := 24 * 60 * MINUTE

  predicate Reapable(p: Pending, now: Instant) {
    p.origin.None? && Micros(p.storedAt) < Micros(now) - REAP_AGE
  }

  class PendingStore {
    var entries: map<ActionId, Pending>
    var nextId: ActionId

    ghost function View(): Store
      reads this
    {
      Store(entries, nextId)
    }

    constructor ()
      ensures View() == Store(map[], 0)
    {
      entries, nextId := map[], 0;
    }

    /** `apply_write`: classify, materialise the matched set, mint an id and store. */
    method ApplyWrite(w: Write, policy: ApprovalPolicy, pattern: bool, loopStep: Option<int>, now: Instant)
      returns (id: ActionId)
      modifies this
      ensures id == old(nextId)
      ensures View() == Put(old(View()), Staged(w, policy, pattern, loopStep, now))
    {
      var p := Pending(w, Some(ClassifyWrite(w, policy)), w.impact, None, None, loopStep, None, now);
      if pattern {
        var records := RecordsOf(w);
        var matched: seq<Pattern.Entry> := [];
        for i := 0 to |records|
          invariant matched == Matched(records[..i], w.originals)
        {
          assert records[..i + 1][..i] == records[..i];
          var rec := records[i];
          if rec.NotAnObject? { continue; }
          matched := matched + [Pattern.Entry(
            rec.id, if rec.id in w.originals then w.originals[rec.id] else map[],
            if rec.properties.Some? then rec.properties.value else map[])];
        }
        assert records[..|records|] == records;
        var over := |matched| > policy.patternConfirmThreshold;
        p := p.(pattern := Some(matched), required := if over then |matched| else 0,
                tier := Some(if over then FULL_GATE else CONFIRM));
      }
      id := nextId;
      entries := entries[id := p];
      nextId := nextId + 1;
    }

    /** `confirm`: only the exact count is recorded. */
    method Confirm(id: ActionId, count: int) returns (ok: bool)
      modifies this
      ensures ok <==> id in old(entries) && count == old(entries)[id].required
      ensures View() == if ok then old(View()).(entries := old(entries)[id := old(entries)[id].(confirmed := Some(count))])
                        else old(View())
    {
      ok := id in entries && count == entries[id].required;
      if ok {
        entries := entries[id := entries[id].(confirmed := Some(count))];
      }
    }

    method Clear(id: ActionId)
      modifies this
      ensures View() == old(View()).(entries := old(entries) - {id})
    {
      entries := entries - {id};
    }

    /** Load, set the origin, store again; a record that is gone stays gone. */
    method Stamp(id: ActionId, sid: ScheduleId, now: Instant)
      modifies this
      ensures View() == if id in old(entries)
                        then old(View()).(entries := old(entries)[id := old(entries)[id].(origin := Some(sid), storedAt := now)])
                        else old(View())
    {
      if id in entries {
        entries := entries[id := entries[id].(origin := Some(sid), storedAt := now)];
      }
    }

    /** `reap_expired`: schedule-staged previews are never reaped. */
    method ReapExpired(now: Instant) returns (removed: nat)
      modifies this
      ensures View() == old(View()).(entries := map id | id in old(entries) && !Reapable(old(entries)[id], now) :: old(entries)[id])
      ensures removed == |old(entries)| - |entries|
    {
      removed := 0;
      var todo := entries.Keys;
      while todo != {}
        invariant todo <= old(entries).Keys && nextId == old(nextId)
        invariant entries == map id | id in old(entries) && (id in todo || !Reapable(old(entries)[id], now)) :: old(entries)[id]
        invariant removed == |old(entries)| - |entries|
        decreases todo
      {
        var id :| id in todo;
        todo := todo - {id};
        if Reapable(entries[id], now) {
          RemoveOne(entries, id);
          entries := entries - {id};
          removed := removed + 1;
        }
      }
    }
  }

  lemma RemoveOne<K, V>(m: map<K, V>, k: K)
    requires k in m
    ensures |m - {k}| == |m| - 1
  {
    assert (m - {k}).Keys == m.Keys - {k};
    assert |(m - {k}).Keys| == |m.Keys| - 1;
  }
}

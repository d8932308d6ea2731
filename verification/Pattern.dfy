/** Pattern approval: one approved rule applied record by record with compare-and-set
    (src/hubspot_agent/handlers.py, `_execute_pattern_write`). */
module Pattern {
  import opened Wrappers
  import opened Records

  /** A matched record: its captured pre-image and the changes the rule makes to it. */
  datatype Entry = Entry(id: RecordId, preImage: Values, changes: Values)

  /** How HubSpot answers the two calls made for one entry. */
  datatype Fate = ReadFails | WriteFails | Succeeds

  /** One turn of the batch: what other writers stored just before it, and how its calls go. */
  datatype Turn = Turn(others: Portal, fate: Fate)

  /** The portal and the executor's four accumulators. */
  datatype Batch = Batch(portal: Portal, applied: seq<RecordId>, skipped: seq<RecordId>, failed: seq<RecordId>,
                         originals: map<RecordId, Values>)

  /** Every field the rule changes still reads as it did when the pre-image was captured. */
  predicate StillAsCaptured(r: Record, e: Entry) {
    forall k <- e.changes :: Lookup(r, k) == Get(e.preImage, k)
  }

  function Step(b: Batch, e: Entry, turn: Turn): Batch {
    var now := b.portal + turn.others;
    var seen := b.(portal := now);
    if e.id == "" || e.changes == map[] then seen.(failed := b.failed + [e.id])
    else if turn.fate.ReadFails? || e.id !in now then seen.(failed := b.failed + [e.id])
    else if !StillAsCaptured(now[e.id], e) then seen.(skipped := b.skipped + [e.id])
    else if turn.fate.WriteFails? then seen.(failed := b.failed + [e.id])
    else
      seen.(portal := now[e.id := Patch(now[e.id], e.changes)],
            applied := b.applied + [e.id],
            originals := b.originals[e.id := e.preImage])
  }

  /** The batch after every entry has had its turn. */
  function Run(portal: Portal, matched: seq<Entry>, turns: seq<Turn>): Batch
    requires |turns| == |matched|
    decreases |matched|
  {
    if matched == [] then Batch(portal, [], [], [], map[])
    else
      var n := |matched| - 1;
      Step(Run(portal, matched[..n], turns[..n]), matched[n], turns[n])
  }

  /** The executor's loop: a failure is recorded and the batch goes on. */
  method ExecutePatternWrite(crm: Crm, matched: seq<Entry>, turns: seq<Turn>)
    returns (applied: seq<RecordId>, skipped: seq<RecordId>, failed: seq<RecordId>, originals: map<RecordId, Values>)
    requires |turns| == |matched|
    modifies crm
    ensures Batch(crm.portal, applied, skipped, failed, originals) == Run(old(crm.portal), matched, turns)
  {
    applied, skipped, failed, originals := [], [], [], map[];
    for i := 0 to |matched|
      invariant Batch(crm.portal, applied, skipped, failed, originals)
             == Run(old(crm.portal), matched[..i], turns[..i])
    {
      assert matched[..i + 1][..i] == matched[..i] && turns[..i + 1][..i] == turns[..i];
      var entry, fate := matched[i], turns[i].fate;
      crm.portal := crm.portal + turns[i].others;
      var rid := entry.id;
      if rid == "" || entry.changes == map[] {
        failed := failed + [rid];
      } else if fate.ReadFails? || rid !in crm.portal {
        failed := failed + [rid];
      } else if exists k <- entry.changes :: Lookup(crm.portal[rid], k) != Get(entry.preImage, k) {
        skipped := skipped + [rid];
      } else if fate.WriteFails? {
        failed := failed + [rid];
      } else {
        crm.portal := crm.portal[rid := Patch(crm.portal[rid], entry.changes)];
        applied := applied + [rid];
        originals := originals[rid := entry.preImage];
      }
    }
    assert matched[..|matched|] == matched && turns[..|turns|] == turns;
  }

  // ----- What a batch keeps, whatever fails and whoever else writes -----

  function Ids(matched: seq<Entry>): seq<RecordId> {
    seq(|matched|, i requires 0 <= i < |matched| => matched[i].id)
  }

  /** Applied, skipped and failed partition the matched entries. */
  lemma {:induction false} Partition(portal: Portal, matched: seq<Entry>, turns: seq<Turn>)
    requires |turns| == |matched|
    ensures var b := Run(portal, matched, turns);
            multiset(b.applied) + multiset(b.skipped) + multiset(b.failed) == multiset(Ids(matched))
    decreases |matched|
  {
    if matched != [] {
      var n := |matched| - 1;
      Partition(portal, matched[..n], turns[..n]);
      assert Ids(matched) == Ids(matched[..n]) + [matched[n].id];
    }
  }

  /** Compare-and-set: a turn changes a record beyond what others wrote only if the record read
      back as captured, and then by exactly the entry's changes. */
  lemma WrittenOnlyAsCaptured(b: Batch, e: Entry, turn: Turn, id: RecordId)
    requires Lookup2(Step(b, e, turn).portal, id) != Lookup2(b.portal + turn.others, id)
    ensures id == e.id && id in b.portal + turn.others
    ensures StillAsCaptured((b.portal + turn.others)[id], e)
    ensures Step(b, e, turn).portal[id] == Patch((b.portal + turn.others)[id], e.changes)
    ensures Step(b, e, turn).applied == b.applied + [id] && Step(b, e, turn).originals[id] == e.preImage
  {
  }

  function Lookup2(p: Portal, id: RecordId): Option<Record> {
    if id in p then Some(p[id]) else None
  }

  // ----- With distinct ids and no other writer -----

  ghost predicate DistinctIds(matched: seq<Entry>) {
    forall i, j :: 0 <= i < j < |matched| ==> matched[i].id != matched[j].id
  }

  ghost predicate NoOtherWriter(turns: seq<Turn>) {
    forall t <- turns :: t.others == map[]
  }

  /** What the batch did to the record of one entry. */
  ghost predicate EntryExplained(portal: Portal, b: Batch, e: Entry) {
    e.id in b.applied ==>
      && e.id in portal && StillAsCaptured(portal[e.id], e)
      && e.id in b.portal && b.portal[e.id] == Patch(portal[e.id], e.changes)
      && e.id in b.originals && b.originals[e.id] == e.preImage
  }

  /** Entry by entry, what the batch did to the portal it started from. */
  ghost predicate Explains(portal: Portal, matched: seq<Entry>, b: Batch) {
    && b.originals.Keys == (set id | id in b.applied)
    && b.portal.Keys == portal.Keys
    && (forall id <- b.applied :: id in Ids(matched))
    && (forall e <- matched :: EntryExplained(portal, b, e))
    && (forall id <- portal :: id !in b.applied ==> b.portal[id] == portal[id])
  }

  lemma {:induction false} RunExplained(portal: Portal, matched: seq<Entry>, turns: seq<Turn>)
    requires |turns| == |matched| && DistinctIds(matched) && NoOtherWriter(turns)
    ensures Explains(portal, matched, Run(portal, matched, turns))
    decreases |matched|
  {
    if matched != [] {
      var n := |matched| - 1;
      RunExplained(portal, matched[..n], turns[..n]);
      var b := Run(portal, matched[..n], turns[..n]);
      assert turns[n] in turns;
      assert b.portal + map[] == b.portal;
      StepExplained(portal, matched[..n], b, matched[n], turns[n]);
      assert matched == matched[..n] + [matched[n]];
    }
  }

  lemma StepExplained(portal: Portal, before: seq<Entry>, b: Batch, e: Entry, turn: Turn)
    requires Explains(portal, before, b) && turn.others == map[]
    requires forall e' <- before :: e'.id != e.id
    ensures Explains(portal, before + [e], Step(b, e, turn))
  {
    assert b.portal + turn.others == b.portal;
    assert Ids(before + [e]) == Ids(before) + [e.id];
    NotAppliedBefore(before, b, e);
    var b' := Step(b, e, turn);
    if b'.applied != b.applied {
      assert b' == b.(portal := b.portal[e.id := Patch(b.portal[e.id], e.changes)],
                      applied := b.applied + [e.id], originals := b.originals[e.id := e.preImage]);
      AppliedExplained(portal, before, b, e);
    } else {
      assert b'.portal == b.portal && b'.originals == b.originals;
      forall e' <- before + [e]
        ensures EntryExplained(portal, b', e')
      {
        if e' in before { assert EntryExplained(portal, b, e'); }
      }
    }
  }

  lemma NotAppliedBefore(before: seq<Entry>, b: Batch, e: Entry)
    requires forall id <- b.applied :: id in Ids(before)
    requires forall e' <- before :: e'.id != e.id
    ensures e.id !in b.applied
  {
    forall i | 0 <= i < |before|
      ensures Ids(before)[i] != e.id
    {
      assert before[i] in before;
    }
  }

  lemma AppliedExplained(portal: Portal, before: seq<Entry>, b: Batch, e: Entry)
    requires Explains(portal, before, b) && e.id !in b.applied
    requires forall e' <- before :: e'.id != e.id
    requires e.id in b.portal && StillAsCaptured(b.portal[e.id], e)
    ensures var b' := b.(portal := b.portal[e.id := Patch(b.portal[e.id], e.changes)],
                         applied := b.applied + [e.id], originals := b.originals[e.id := e.preImage]);
            Explains(portal, before + [e], b')
  {
    var b' := b.(portal := b.portal[e.id := Patch(b.portal[e.id], e.changes)],
                 applied := b.applied + [e.id], originals := b.originals[e.id := e.preImage]);
    assert Ids(before + [e]) == Ids(before) + [e.id];
    assert b.portal[e.id] == portal[e.id];
    forall e' <- before + [e]
      ensures EntryExplained(portal, b', e')
    {
      if e' in before { assert EntryExplained(portal, b, e'); }
    }
  }

  // ----- What becomes of each entry -----

  /** Every changed field reads as in the pre-image. */
  ghost predicate Undrifted(portal: Portal, e: Entry) {
    e.id in portal && forall k <- e.changes :: Lookup(portal[e.id], k) == Get(e.preImage, k)
  }

  /** The fate of the `i`th entry, read off the portal that the batch started from. */
  ghost predicate FateIs(portal: Portal, b: Batch, e: Entry, fate: Fate) {
    var asked := e.id != "" && e.changes != map[];
    var read := asked && e.id in portal && fate != ReadFails;
    && (e.id in b.applied <==> read && Undrifted(portal, e) && fate == Succeeds)
    && (e.id in b.skipped <==> read && !Undrifted(portal, e))
    && (e.id in b.failed <==> !read || (Undrifted(portal, e) && fate == WriteFails))
  }

  lemma {:induction false} ListsAreIds(portal: Portal, matched: seq<Entry>, turns: seq<Turn>)
    requires |turns| == |matched|
    ensures var b := Run(portal, matched, turns);
            && (forall id <- b.applied :: id in Ids(matched)) && (forall id <- b.skipped :: id in Ids(matched))
            && forall id <- b.failed :: id in Ids(matched)
    decreases |matched|
  {
    if matched != [] {
      var n := |matched| - 1;
      ListsAreIds(portal, matched[..n], turns[..n]);
      assert Ids(matched) == Ids(matched[..n]) + [matched[n].id];
    }
  }

  /** With distinct ids and no other writer: an entry is applied if and only if it names an existing record
      and a change, both calls go through and every changed field still reads as captured; it is skipped
      if and only if the read went through and some changed field has drifted; otherwise it failed. */
  lemma {:induction false} FateOf(portal: Portal, matched: seq<Entry>, turns: seq<Turn>, i: nat)
    requires |turns| == |matched| && DistinctIds(matched) && NoOtherWriter(turns) && i < |matched|
    ensures FateIs(portal, Run(portal, matched, turns), matched[i], turns[i].fate)
    decreases |matched|
  {
    var n := |matched| - 1;
    var b := Run(portal, matched[..n], turns[..n]);
    ListsAreIds(portal, matched[..n], turns[..n]);
    assert turns[n] in turns && b.portal + map[] == b.portal;
    if i < n {
      FateOf(portal, matched[..n], turns[..n], i);
      StepKeepsFate(portal, b, matched[i], turns[i].fate, matched[n], turns[n]);
    } else {
      RunExplained(portal, matched[..n], turns[..n]);
      forall j | 0 <= j < n
        ensures Ids(matched[..n])[j] != matched[n].id
      {
        assert matched[j].id != matched[n].id;
      }
      assert matched[n].id !in Ids(matched[..n]);
      LastFate(portal, b, matched[n], turns[n]);
    }
  }

  lemma StepKeepsFate(portal: Portal, b: Batch, e: Entry, fate: Fate, next: Entry, turn: Turn)
    requires FateIs(portal, b, e, fate) && next.id != e.id
    ensures FateIs(portal, Step(b, next, turn), e, fate)
  {
  }

  lemma LastFate(portal: Portal, b: Batch, e: Entry, turn: Turn)
    requires turn.others == map[] && b.portal.Keys == portal.Keys && (e.id in portal ==> b.portal[e.id] == portal[e.id])
    requires e.id !in b.applied && e.id !in b.skipped && e.id !in b.failed
    ensures FateIs(portal, Step(b, e, turn), e, turn.fate)
  {
    assert b.portal + turn.others == b.portal;
  }
}

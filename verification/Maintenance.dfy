/**
 * The operations outside the review workflow: revoking (internal/facts/service.go), reaping
 * (internal/reaper/reaper.go) and backfilling embeddings (internal/facts/backfill.go).
 */
module Maintenance {
  import opened Basics
  import opened Schema
  import opened Workflow
  import opened Store
  import opened Outcomes

  /** One row leaves active within a transaction, with its event. */
  method LeaveActive(tx: Tx, f: Id, to: Status, principal: string, action: Action)
    requires tx.Valid() && !tx.aborted && f in tx.work.facts && to != Active
    modifies tx
    ensures tx.Valid() && !tx.aborted
    ensures tx.work == Leave(old(tx.work), f, to, principal, action)
  {
    InactiveAdmissible(tx.work, f, to);
    var _ := tx.SetStatus(f, to);
    var _ := tx.WriteAudit(Event(principal, action, OnFact, f, OfFact(Active), OfFact(to), NoDetail));
  }

  /** RevokeWithVersion and its event; a stale version or an inactive fact writes nothing. */
  method Revoke(db: Db, f: Id, version: nat, principal: string) returns (err: Option<Error>)
    requires db.Valid()
    modifies db
    ensures db.Valid()
    ensures db.tables == RevokeTx(old(db.tables), f, version, principal).0
    ensures err == RevokeTx(old(db.tables), f, version, principal).1
    ensures RevokeOutcome(old(db.tables), db.tables, err, f, version, principal)
  {
    RevokeMeans(db.tables, f, version, principal);
    var tx := db.Begin();
    var found := tx.GetFact(f);
    if found.Some? && found.value.version == version && found.value.status == Active {
      LeaveActive(tx, f, Revoked, principal, FactRevoked);
      var ok := db.Commit(tx);
      return if ok then None else Some(Aborted);
    }
    if found.None? {
      return Some(NotFound);
    }
    if found.value.status != Active {
      return Some(NotActive(found.value.status));
    }
    err := Some(VersionConflict);
  }

  datatype ReapResult = ReapResult(expired: nat, expiringSoon: nat)

  const DAY := 24 * 60 * 60

  predicate ExpiringSoon(f: Fact, now: int) {
    f.status == Active && f.validTo.Some? && now < f.validTo.value <= now + DAY
  }

  /** The SELECT of the reaper: the due ids, in whatever order the rows come. */
  method SelectDue(t: Tables, now: int) returns (ids: seq<Id>)
    ensures Enumerates(ids, DueIds(t, now))
  {
    ids := [];
    var left := set f | f in t.facts && Due(t.facts[f], now);
    while left != {}
      invariant forall i, j | 0 <= i < j < |ids| :: ids[i] != ids[j]
      invariant forall x :: x in DueIds(t, now) <==> x in ids || x in left
      invariant forall x | x in ids :: x !in left
    {
      var f :| f in left;
      ids := ids + [f];
      left := left - {f};
    }
  }

  /** Reap: collects the due ids, then expires and audits them one by one in one transaction. */
  method Reap(db: Db, now: int) returns (res: ReapResult, order: seq<Id>)
    requires db.Valid()
    modifies db
    ensures db.Valid()
    ensures Enumerates(order, DueIds(old(db.tables), now))
    ensures db.tables == ReapTx(old(db.tables), now, order)
    ensures res.expired == |DueIds(old(db.tables), now)| == |db.tables.log| - |old(db.tables).log|
    ensures ReapOutcome(old(db.tables), db.tables, now)
    ensures res.expired == |set f | f in old(db.tables).facts && Lapsed(old(db.tables).facts[f], now)|
    ensures res.expiringSoon
              == |set f | f in db.tables.facts && db.tables.facts[f].status == Active
                          && db.tables.facts[f].validTo.Some?
                          && now < db.tables.facts[f].validTo.value <= now + 86400|
  {
    ghost var t0 := db.tables;
    var tx := db.Begin();
    order := SelectDue(tx.work, now);
    ExpireRows(tx, order);
    ReapMeans(t0, now, order);
    EnumerationSize(order, DueIds(t0, now));
    assert DueIds(t0, now) == set f | f in t0.facts && Lapsed(t0.facts[f], now);
    var soon := CountSoon(tx.work, now);
    res := ReapResult(|order|, soon);
    var _ := db.Commit(tx);
  }

  /** The loop over the collected ids: one UPDATE and one event each. */
  method ExpireRows(tx: Tx, order: seq<Id>)
    requires tx.Valid() && !tx.aborted
    requires forall f | f in order :: f in tx.work.facts
    modifies tx
    ensures tx.Valid() && !tx.aborted
    ensures tx.work == ExpireAll(old(tx.work), order)
  {
    ghost var t0 := tx.work;
    for i := 0 to |order|
      invariant forall f | f in order :: f in t0.facts
      invariant tx.Valid() && !tx.aborted && tx.work == ExpireAll(t0, order[..i])
    {
      assert order[..i + 1][..i] == order[..i];
      LeaveActive(tx, order[i], Expired, REAPER, FactExpired);
    }
    assert order[..|order|] == order;
  }

  lemma {:induction false} EnumerationSize(order: seq<Id>, ids: set<Id>)
    requires Enumerates(order, ids)
    ensures |order| == |ids|
  {
    if order == [] {
      assert ids == {};
    } else {
      var last := |order| - 1;
      assert order[..last] + [order[last]] == order;
      EnumerationSize(order[..last], ids - {order[last]});
    }
  }

  /** What reaping leaves: the listed facts expired, one version up; every other row as it was. */
  lemma {:induction false} ExpireAllFacts(t: Tables, order: seq<Id>)
    requires forall f | f in order :: f in t.facts
    requires forall i, j | 0 <= i < j < |order| :: order[i] != order[j]
    ensures ExpireAll(t, order).facts ==
              map f | f in t.facts :: if f in order then WithStatus(t.facts[f], Expired) else t.facts[f]
    ensures ExpireAll(t, order).(facts := t.facts, log := t.log) == t
    ensures |ExpireAll(t, order).log| == |t.log| + |order|
  {
    if order != [] {
      var last := |order| - 1;
      assert order[..last] + [order[last]] == order;
      ExpireAllFacts(t, order[..last]);
    }
  }

  /** Active facts that lapse within a day. */
  method CountSoon(t: Tables, now: int) returns (soon: nat)
    ensures soon == |set f | f in t.facts && t.facts[f].status == Active && t.facts[f].validTo.Some?
                             && now < t.facts[f].validTo.value <= now + 86400|
  {
    var ids := set f | f in t.facts && ExpiringSoon(t.facts[f], now);
    assert ids == set f | f in t.facts && t.facts[f].status == Active && t.facts[f].validTo.Some?
                          && now < t.facts[f].validTo.value <= now + 86400;
    soon := |ids|;
  }

  lemma ReapLogs(t: Tables, now: int, order: seq<Id>, u: Tables)
    requires Enumerates(order, DueIds(t, now)) && u == ExpireAll(t, order)
    ensures |u.log| == |t.log| + |order| && t.log <= u.log
    ensures forall i | |t.log| <= i < |u.log| ::
              && u.log[i].subject in t.facts && Lapsed(t.facts[u.log[i].subject], now)
              && u.log[i] == ExpiredEvent(u.log[i].subject)
    ensures forall f | f in t.facts && Lapsed(t.facts[f], now) ::
              exists i :: |t.log| <= i < |u.log| && u.log[i].subject == f
    ensures forall i, j | |t.log| <= i < j < |u.log| :: u.log[i].subject != u.log[j].subject
  {
    ExpiredEvents(t, order);
    forall i | |t.log| <= i < |u.log|
      ensures u.log[i] == ExpiredEvent(order[i - |t.log|]) && u.log[i].subject in order
    {
      assert u.log[|t.log| + (i - |t.log|)] == ExpiredEvent(order[i - |t.log|]);
    }
    forall f | f in t.facts && Lapsed(t.facts[f], now)
      ensures exists i :: |t.log| <= i < |u.log| && u.log[i].subject == f
    {
      assert f in order;
      var k :| 0 <= k < |order| && order[k] == f;
      assert u.log[|t.log| + k].subject == f;
    }
  }

  lemma ReapMeans(t: Tables, now: int, order: seq<Id>)
    requires Enumerates(order, DueIds(t, now))
    ensures ReapOutcome(t, ReapTx(t, now, order), now)
    ensures |ReapTx(t, now, order).log| == |t.log| + |order|
  {
    ExpireAllFacts(t, order);
    ReapLogs(t, now, order, ExpireAll(t, order));
  }

  datatype BackfillResult = BackfillResult(scanned: nat, embedded: nat, failed: nat)

  ghost function Unembedded(t: Tables): set<Id> {
    set f | f in t.facts && t.facts[f].status == Active && !t.facts[f].embedded
  }

  /** One row of the pass, whatever has become of the fact since it was listed. */
  method StoreEmbedding(db: Db, f: Id)
    requires db.Valid()
    modifies db
    ensures db.Valid()
    ensures db.tables == EmbedTx(old(db.tables), f) && EmbedOutcome(old(db.tables), db.tables, f)
  {
    EmbeddingMeans(db.tables, f, {});
    var tx := db.Begin();
    tx.SetEmbedding(f);
    var _ := db.Commit(tx);
  }

  lemma EmbedOneMore(t: Tables, done: set<Id>, f: Id)
    requires f in t.facts && t.facts[f].status == Active
    ensures EmbedTx(BackfillTx(t, done), f) == BackfillTx(t, done + {f})
  {
  }

  lemma EmbedAll(t: Tables, done: set<Id>, accepts: set<Id>)
    requires forall f :: f in done <==> f in accepts && f in Unembedded(t)
    ensures BackfillTx(t, done) == BackfillTx(t, accepts)
    ensures Unembedded(BackfillTx(t, accepts)) == Unembedded(t) - done
  {
  }

  lemma EmbedNone(t: Tables)
    ensures BackfillTx(t, {}) == t
  {
  }

  /**
   * BackfillEmbeddings with no other step in between: every row is its own statement, one failure
   * never stops the pass. `accepts` are the facts for which embedding and storing both succeed.
   */
  method Backfill(db: Db, accepts: set<Id>) returns (res: BackfillResult)
    requires db.Valid()
    modifies db
    ensures db.Valid()
    ensures db.tables == BackfillTx(old(db.tables), accepts) && BackfillOutcome(old(db.tables), db.tables, accepts)
    ensures res.scanned == |Unembedded(old(db.tables))| && res.scanned == res.embedded + res.failed
    ensures res.failed == |Unembedded(db.tables)|
  {
    ghost var t0 := db.tables;
    var todo := set f | f in db.tables.facts && db.tables.facts[f].status == Active && !db.tables.facts[f].embedded;
    assert todo == Unembedded(t0);
    res := BackfillResult(|todo|, 0, 0);
    var left := todo;
    ghost var done: set<Id>, missed: set<Id> := {}, {};
    EmbedNone(t0);
    while left != {}
      invariant forall f :: f in todo <==> f in left || f in done || f in missed
      invariant forall f | f in left :: f !in missed
      invariant forall f | f in done :: f in accepts
      invariant forall f | f in missed :: f !in accepts
      invariant db.Valid() && db.tables == BackfillTx(t0, done)
      invariant res.scanned == |todo| == res.embedded + res.failed + |left|
      invariant res.failed == |missed|
    {
      var f :| f in left;
      left := left - {f};
      if f in accepts {
        EmbedOneMore(t0, done, f);
        StoreEmbedding(db, f);
        done := done + {f};
        res := res.(embedded := res.embedded + 1);
      } else {
        missed := missed + {f};
        res := res.(failed := res.failed + 1);
      }
    }
    EmbedAll(t0, done, accepts);
    EmbeddingMeans(t0, 0, accepts);
    assert missed == todo - done;
  }
}

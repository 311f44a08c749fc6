/**
 * Transactions over the tables: every statement works on a snapshot, a statement that violates a
 * constraint aborts the transaction, and an aborted transaction cannot commit. The statements are
 * those of internal/facts/repo.go, internal/promotions/repo.go and internal/audit/audit.go.
 */
module Store {
  import opened Basics
  import opened Schema
  import opened Workflow

  class Db {
    var tables: Tables

    ghost predicate Valid()
      reads this
    {
      Constraints(tables)
    }

    constructor ()
      ensures Valid() && tables == EMPTY
    {
      tables := EMPTY;
    }

    method Begin() returns (tx: Tx)
      requires Valid()
      ensures fresh(tx) && tx.Valid() && !tx.aborted && tx.work == tables
    {
      tx := new Tx(tables);
    }

    /** pgx Commit: fails, and changes nothing, once the transaction is aborted. */
    method Commit(tx: Tx) returns (ok: bool)
      requires tx.Valid()
      modifies this
      ensures ok == !tx.aborted
      ensures tables == if ok then tx.work else old(tables)
    {
      ok := !tx.aborted;
      if ok {
        tables := tx.work;
      }
    }
  }

  /** The row may stand under this id: no second active fact in its slot, no dangling reference. */
  predicate FactAdmissible(t: Tables, id: Id, row: Fact) {
    && SlotUnique(t.facts[id := row])
    && row.ns in t.namespaces
    && RefersTo(row.supersedes, t.facts.Keys + {id})
    && RefersTo(row.supersededBy, t.facts.Keys + {id})
  }

  predicate PromotionAdmissible(t: Tables, id: Id, row: Promotion) {
    && IdemUnique(t.promos[id := row])
    && row.factId in t.facts && row.ns in t.namespaces
    && RefersTo(row.conflictWith, t.facts.Keys)
  }

  /** The row an approved activation writes. */
  function ActivatedRow(f: Fact, approvers: seq<string>, now: int): Fact {
    WithStatus(f, Active).(validFrom := Some(now), approvedBy := approvers)
  }

  /** The row an automatic activation writes. */
  function AutoRow(f: Fact, now: int): Fact {
    WithStatus(f, Active).(validFrom := Some(now), tags := f.tags + {"auto:true"})
  }

  /** No constraint stops a fact from taking a status other than active. */
  lemma InactiveAdmissible(t: Tables, id: Id, to: Status)
    requires Constraints(t) && id in t.facts && to != Active
    ensures FactAdmissible(t, id, WithStatus(t.facts[id], to))
  {
  }

  lemma LinkKeepsSlots(t: Tables, f: Id, a: Id)
    requires Constraints(t) && f in t.facts
    ensures SlotUnique(t.facts[f := t.facts[f].(supersedes := Some(a))])
  {
    var linked := t.facts[f := t.facts[f].(supersedes := Some(a))];
    assert forall x, y | x in linked && y in linked && Rivals(linked[x], linked[y]) :: Rivals(t.facts[x], t.facts[y]);
  }

  lemma EmbedKeepsSlots(t: Tables, f: Id)
    requires Constraints(t) && f in t.facts
    ensures SlotUnique(t.facts[f := t.facts[f].(embedded := true)])
  {
    var same := t.facts[f := t.facts[f].(embedded := true)];
    assert forall x, y | x in same && y in same && Rivals(same[x], same[y]) :: Rivals(t.facts[x], t.facts[y]);
  }

  /** Neither index and no foreign key depends on a promotion's state or reviews. */
  lemma ReviewedKeepsConstraints(t: Tables, id: Id, state: State, reviews: seq<Review>)
    requires Constraints(t) && id in t.promos
    ensures Constraints(t.(promos := t.promos[id := t.promos[id].(state := state, reviews := reviews)]))
  {
    var after := t.promos[id := t.promos[id].(state := state, reviews := reviews)];
    forall p, q | p in after && q in after && SameRequest(after[p], after[q]) ensures p == q {
      assert SameRequest(t.promos[p], t.promos[q]);
    }
  }

  class Tx {
    var work: Tables
    var aborted: bool

    ghost predicate Valid()
      reads this
    {
      Constraints(work)
    }

    constructor (snapshot: Tables)
      requires Constraints(snapshot)
      ensures Valid() && work == snapshot && !aborted
    {
      work, aborted := snapshot, false;
    }

    /** An INSERT or UPDATE of one fact row. */
    method PutFact(id: Id, row: Fact) returns (ok: bool)
      requires Valid() && id < work.next
      modifies this
      ensures Valid()
      ensures ok == !aborted
      ensures ok <==> !old(aborted) && FactAdmissible(old(work), id, row)
      ensures work == if ok then old(work).(facts := old(work).facts[id := row]) else old(work)
    {
      ok := !aborted && FactAdmissible(work, id, row);
      if ok {
        work := work.(facts := work.facts[id := row]);
      } else {
        aborted := true;
      }
    }

    method InsertFact(row: Fact) returns (id: Option<Id>)
      requires Valid()
      modifies this
      ensures Valid()
      ensures id.Some? == !aborted
      ensures id.Some? <==> !old(aborted) && FactAdmissible(old(work), old(work).next, row)
      ensures id.Some? ==>
                && id.value == old(work).next
                && work == old(work).(facts := old(work).facts[id.value := row], next := id.value + 1)
    {
      var fresh_ := work.next;
      work := work.(next := fresh_ + 1);
      var ok := PutFact(fresh_, row);
      id := if ok then Some(fresh_) else None;
    }

    method InsertPromotion(row: Promotion) returns (id: Option<Id>)
      requires Valid()
      modifies this
      ensures Valid()
      ensures id.Some? == !aborted
      ensures id.Some? <==> !old(aborted) && PromotionAdmissible(old(work), old(work).next, row)
      ensures id.Some? ==>
                && id.value == old(work).next
                && work == old(work).(promos := old(work).promos[id.value := row], next := id.value + 1)
    {
      if !aborted && PromotionAdmissible(work, work.next, row) {
        id := Some(work.next);
        work := work.(promos := work.promos[work.next := row], next := work.next + 1);
      } else {
        aborted := true;
        id := None;
      }
    }

    method GetPromotion(id: Id) returns (p: Option<Promotion>)
      requires Valid() && !aborted
      ensures p == if id in work.promos then Some(work.promos[id]) else None
    {
      p := if id in work.promos then Some(work.promos[id]) else None;
    }

    method GetFact(id: Id) returns (f: Option<Fact>)
      requires Valid() && !aborted
      ensures f == if id in work.facts then Some(work.facts[id]) else None
    {
      f := if id in work.facts then Some(work.facts[id]) else None;
    }

    method FindActiveByKey(ns: Id, key: string) returns (f: Option<Id>)
      requires Valid() && !aborted
      ensures f == ActiveInSlot(work, ns, key)
    {
      if g :| g in work.facts && work.facts[g].status == Active && work.facts[g].ns == ns && work.facts[g].key == key {
        assert ActiveAt(work, g, ns, key);
        f := Some(g);
        assert Rivals(work.facts[g], work.facts[ActiveInSlot(work, ns, key).value]);
      } else {
        f := None;
      }
    }

    method UpdateStateAndReviews(id: Id, state: State, reviews: seq<Review>) returns (err: Option<Error>)
      requires Valid()
      modifies this
      ensures Valid() && aborted == old(aborted)
      ensures err == if aborted then Some(Aborted) else if id !in old(work).promos then Some(NotFound) else None
      ensures work == if err.Some? then old(work)
                      else old(work).(
                        promos := old(work).promos[id := old(work).promos[id].(state := state, reviews := reviews)])
    {
      if aborted {
        return Some(Aborted);
      }
      if id !in work.promos {
        return Some(NotFound);
      }
      ReviewedKeepsConstraints(work, id, state, reviews);
      work := work.(promos := work.promos[id := work.promos[id].(state := state, reviews := reviews)]);
      err := None;
    }

    /** One UPDATE of a fact row; no row with the id is reported as NotFound and aborts nothing. */
    method UpdateFact(id: Id, row: Fact) returns (err: Option<Error>)
      requires Valid()
      modifies this
      ensures Valid()
      ensures err == if old(aborted) then Some(Aborted)
                     else if id !in old(work).facts then Some(NotFound)
                     else if !FactAdmissible(old(work), id, row) then Some(Aborted) else None
      ensures aborted == (err == Some(Aborted))
      ensures work == if err.Some? then old(work) else old(work).(facts := old(work).facts[id := row])
    {
      if aborted {
        return Some(Aborted);
      }
      if id !in work.facts {
        return Some(NotFound);
      }
      var ok := PutFact(id, row);
      err := if ok then None else Some(Aborted);
    }

    method SetStatus(id: Id, to: Status) returns (err: Option<Error>)
      requires Valid()
      modifies this
      ensures Valid()
      ensures err == if old(aborted) then Some(Aborted)
                     else if id !in old(work).facts then Some(NotFound)
                     else if FactAdmissible(old(work), id, WithStatus(old(work).facts[id], to)) then None
                     else Some(Aborted)
      ensures aborted == (err == Some(Aborted))
      ensures work == if err.Some? then old(work)
                      else old(work).(facts := old(work).facts[id := WithStatus(old(work).facts[id], to)])
    {
      if aborted {
        return Some(Aborted);
      }
      if id !in work.facts {
        return Some(NotFound);
      }
      err := UpdateFact(id, WithStatus(work.facts[id], to));
    }

    /** An UPDATE that matches no row changes nothing and is no error. */
    method SetEmbedding(id: Id)
      requires Valid()
      modifies this
      ensures Valid() && aborted == old(aborted)
      ensures work == if aborted then old(work) else EmbedTx(old(work), id)
    {
      if id in work.facts {
        EmbedKeepsSlots(work, id);
        var _ := UpdateFact(id, work.facts[id].(embedded := true));
      }
    }

    /** Two UPDATEs; if only one of the rows exists, the pointer to the other violates its foreign key. */
    method Supersede(old_: Id, new_: Id) returns (err: Option<Error>)
      requires Valid()
      modifies this
      ensures Valid()
      ensures aborted == err.Some? && (err.Some? ==> err.value == Aborted)
      ensures err.None? <==> !old(aborted) && (old_ in old(work).facts <==> new_ in old(work).facts)
      ensures work == if err.None? && old_ in old(work).facts
                      then old(work).(facts := SupersedeRows(old(work).facts, old_, new_))
                      else old(work)
    {
      if aborted {
        return Some(Aborted);
      }
      err := None;
      if old_ in work.facts {
        err := UpdateFact(old_, WithStatus(work.facts[old_], Superseded).(supersededBy := Some(new_)));
      }
      if err.None? && new_ in work.facts {
        LinkKeepsSlots(work, new_, old_);
        err := UpdateFact(new_, work.facts[new_].(supersedes := Some(old_)));
      }
    }

    method Activate(id: Id, approvers: seq<string>, now: int) returns (err: Option<Error>)
      requires Valid()
      modifies this
      ensures Valid()
      ensures err == if old(aborted) then Some(Aborted)
                     else if id !in old(work).facts then Some(NotFound)
                     else if FactAdmissible(old(work), id, ActivatedRow(old(work).facts[id], approvers, now)) then None
                     else Some(Aborted)
      ensures aborted == (err == Some(Aborted))
      ensures work == if err.Some? then old(work)
                      else old(work).(facts := old(work).facts[id := ActivatedRow(old(work).facts[id], approvers, now)])
    {
      if aborted {
        return Some(Aborted);
      }
      if id !in work.facts {
        return Some(NotFound);
      }
      err := UpdateFact(id, ActivatedRow(work.facts[id], approvers, now));
    }

    /** Leaves approved_by alone and adds the tag. */
    method ActivateAuto(id: Id, now: int) returns (err: Option<Error>)
      requires Valid()
      modifies this
      ensures Valid()
      ensures err == if old(aborted) then Some(Aborted)
                     else if id !in old(work).facts then Some(NotFound)
                     else if !FactAdmissible(old(work), id, AutoRow(old(work).facts[id], now)) then Some(Aborted)
                     else None
      ensures aborted == (err == Some(Aborted))
      ensures work == if err.Some? then old(work)
                      else old(work).(facts := old(work).facts[id := AutoRow(old(work).facts[id], now)])
    {
      if aborted {
        return Some(Aborted);
      }
      if id !in work.facts {
        return Some(NotFound);
      }
      err := UpdateFact(id, AutoRow(work.facts[id], now));
    }

    /** audit.Write: the event becomes durable with the rest of the transaction. */
    method WriteAudit(e: Event) returns (err: Option<Error>)
      requires Valid()
      modifies this
      ensures Valid() && aborted == old(aborted)
      ensures err == if aborted then Some(Aborted) else None
      ensures work == if err.Some? then old(work) else old(work).(log := old(work).log + [e])
    {
      if aborted {
        return Some(Aborted);
      }
      work := work.(log := work.log + [e]);
      err := None;
    }
  }
}

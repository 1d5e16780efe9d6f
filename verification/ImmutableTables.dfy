/**
 Append-only tables: a row is inserted once under its identifier, and the column
 checks, the references and the exclusion constraint of its table decide whether it may be.
 */
module ImmutableTables {
  import opened Wrappers

  /** What the publisher needs to know of one record kind and its table. */
  datatype Kind<!R> = Kind(
    id: R -> string,          // primary key
    stored: R -> R,           // the record as its columns keep it
    fits: R -> bool,          // column checks
    linked: R -> bool,        // foreign keys, as things stand
    clash: (R, R) -> bool)    // two stored rows that the exclusion or unique constraint keeps apart

  /** A constraint does not care which row came first. */
  ghost predicate Symmetric<R(!new)>(k: Kind<R>)
  {
    forall x, y :: k.clash(x, y) == k.clash(y, x)
  }

  /** Rows by identifier; the record kept with a row is the one its hash was taken of. */
  type Rows<R(==)> = map<string, R>

  predicate Collides<R(==)>(k: Kind<R>, rows: Rows<R>, record: R)
  {
    exists id | id in rows :: k.clash(k.stored(rows[id]), k.stored(record))
  }

  /** INSERT .. ON CONFLICT (id) DO NOTHING, and the hash comparison when nothing was inserted. */
  function InsertImmutable<R(==)>(k: Kind<R>, rows: Rows<R>, record: R): Option<Rows<R>>
  {
    if k.id(record) in rows then
      if rows[k.id(record)] == record then Some(rows) else None
    else if !k.fits(k.stored(record)) || !k.linked(k.stored(record)) || Collides(k, rows, record) then None
    else Some(rows[k.id(record) := record])
  }

  function InsertAll<R(==)>(k: Kind<R>, rows: Rows<R>, batch: seq<R>): Option<Rows<R>>
  {
    if batch == [] then Some(rows)
    else
      var before := InsertAll(k, rows, batch[..|batch| - 1]);
      if before.None? then None else InsertImmutable(k, before.value, batch[|batch| - 1])
  }

  lemma {:induction false} RefusedPrefix<R>(k: Kind<R>, rows: Rows<R>, batch: seq<R>, n: nat)
    requires n <= |batch| && InsertAll(k, rows, batch[..n]).None?
    ensures InsertAll(k, rows, batch).None?
    decreases |batch|
  {
    if n == |batch| {
      assert batch[..n] == batch;
    } else {
      assert batch[..|batch| - 1][..n] == batch[..n];
      RefusedPrefix(k, rows, batch[..|batch| - 1], n);
    }
  }

  /** The loop over one list of a batch; `left` statements run before the connection is lost. */
  method InsertRows<R(==)>(k: Kind<R>, rows: Rows<R>, batch: seq<R>, left: nat) returns (r: Option<Rows<R>>)
    ensures r.Some? <==> left >= |batch| && InsertAll(k, rows, batch).Some?
    ensures r.Some? ==> r == InsertAll(k, rows, batch)
  {
    var now := rows;
    for i := 0 to |batch|
      invariant i <= left && InsertAll(k, rows, batch[..i]) == Some(now)
    {
      assert batch[..i + 1][..i] == batch[..i];
      if i == left {
        return None;
      }
      var next := InsertImmutable(k, now, batch[i]);
      if next.None? {
        RefusedPrefix(k, rows, batch, i + 1);
        return None;
      }
      now := next.value;
    }
    assert batch[..|batch|] == batch;
    return Some(now);
  }

  // ---------- when a batch is accepted ----------

  /** No identifier is used for two contents, there or in the table. */
  ghost predicate IdsAgree<R>(k: Kind<R>, rows: Rows<R>, batch: seq<R>)
  {
    && (forall i :: 0 <= i < |batch| && k.id(batch[i]) in rows ==> rows[k.id(batch[i])] == batch[i])
    && (forall i, j :: 0 <= i < j < |batch| && k.id(batch[i]) == k.id(batch[j]) ==> batch[i] == batch[j])
  }

  /** Every row that is new meets the column checks and the references. */
  ghost predicate NewFit<R>(k: Kind<R>, rows: Rows<R>, batch: seq<R>)
  {
    forall i :: 0 <= i < |batch| && k.id(batch[i]) !in rows ==> k.fits(k.stored(batch[i])) && k.linked(k.stored(batch[i]))
  }

  /** No new row clashes with a stored row, or with another new row before it. */
  ghost predicate NewApart<R>(k: Kind<R>, rows: Rows<R>, batch: seq<R>)
  {
    && (forall i, id :: 0 <= i < |batch| && k.id(batch[i]) !in rows && id in rows ==> !k.clash(k.stored(rows[id]), k.stored(batch[i])))
    && (forall i, j :: 0 <= i < j < |batch| && k.id(batch[i]) !in rows && k.id(batch[j]) !in rows && k.id(batch[i]) != k.id(batch[j]) ==>
          !k.clash(k.stored(batch[i]), k.stored(batch[j])))
  }

  ghost predicate Admits<R>(k: Kind<R>, rows: Rows<R>, batch: seq<R>)
  {
    IdsAgree(k, rows, batch) && NewFit(k, rows, batch) && NewApart(k, rows, batch)
  }

  /** Rows are only added, and the batch is all there. */
  ghost predicate Grown<R>(k: Kind<R>, rows: Rows<R>, batch: seq<R>, after: Rows<R>)
  {
    && (forall id :: id in rows ==> id in after && after[id] == rows[id])
    && (forall i :: 0 <= i < |batch| ==> k.id(batch[i]) in after && after[k.id(batch[i])] == batch[i])
    && (forall id :: id in after ==> id in rows || exists i :: 0 <= i < |batch| && k.id(batch[i]) == id)
  }

  lemma InsertGrows<R>(k: Kind<R>, rows: Rows<R>, front: seq<R>, before: Rows<R>, record: R)
    requires Grown(k, rows, front, before) && InsertImmutable(k, before, record).Some?
    ensures Grown(k, rows, front + [record], InsertImmutable(k, before, record).value)
  {
    hide Collides;
    var all, after := front + [record], InsertImmutable(k, before, record).value;
    assert all[|front|] == record && forall i :: 0 <= i < |front| ==> all[i] == front[i];
    forall id | id in after ensures id in rows || exists i :: 0 <= i < |all| && k.id(all[i]) == id {
      if id == k.id(record) {
        assert k.id(all[|front|]) == id;
      } else if id !in rows {
        var i :| 0 <= i < |front| && k.id(front[i]) == id;
        assert k.id(all[i]) == id;
      }
    }
  }

  /** The rows in front of the last one collide with it exactly when a stored row or a new one does. */
  lemma CollidesIff<R>(k: Kind<R>, rows: Rows<R>, front: seq<R>, before: Rows<R>, record: R)
    requires Grown(k, rows, front, before)
    ensures Collides(k, before, record) <==>
              || (exists id :: id in rows && k.clash(k.stored(rows[id]), k.stored(record)))
              || (exists i :: 0 <= i < |front| && k.id(front[i]) !in rows && k.clash(k.stored(front[i]), k.stored(record)))
  {
    if id :| id in before && k.clash(k.stored(before[id]), k.stored(record)) {
      if id !in rows {
        var i :| 0 <= i < |front| && k.id(front[i]) == id;
      }
    }
    if id :| id in rows && k.clash(k.stored(rows[id]), k.stored(record)) {
      assert id in before;
    }
    if i :| 0 <= i < |front| && k.id(front[i]) !in rows && k.clash(k.stored(front[i]), k.stored(record)) {
      assert k.id(front[i]) in before;
    }
  }

  lemma LastAdmitted<R(!new)>(k: Kind<R>, rows: Rows<R>, front: seq<R>, before: Rows<R>, record: R)
    requires Symmetric(k) && Grown(k, rows, front, before) && Admits(k, rows, front)
    ensures InsertImmutable(k, before, record).Some? <==> Admits(k, rows, front + [record])
  {
    CollidesIff(k, rows, front, before, record);
    hide Collides;
    if k.id(record) in before {
      LastKnown(k, rows, front, before, record);
    } else {
      assert forall i :: 0 <= i < |front| ==> k.id(front[i]) != k.id(record);
      LastNew(k, rows, front, record);
    }
  }

  lemma LastKnown<R(!new)>(k: Kind<R>, rows: Rows<R>, front: seq<R>, before: Rows<R>, record: R)
    requires Symmetric(k) && Grown(k, rows, front, before) && Admits(k, rows, front) && k.id(record) in before
    ensures Admits(k, rows, front + [record]) <==> before[k.id(record)] == record
  {
    hide Admits, Symmetric;
    if k.id(record) in rows {
      LastStored(k, rows, front, record);
    } else {
      var i :| 0 <= i < |front| && k.id(front[i]) == k.id(record);
      LastRepeats(k, rows, front, record, i);
    }
  }

  lemma LastStored<R>(k: Kind<R>, rows: Rows<R>, front: seq<R>, record: R)
    requires Admits(k, rows, front) && k.id(record) in rows
    ensures Admits(k, rows, front + [record]) <==> rows[k.id(record)] == record
  {
    var all := front + [record];
    assert all[|front|] == record && forall i :: 0 <= i < |front| ==> all[i] == front[i];
  }

  lemma LastRepeats<R(!new)>(k: Kind<R>, rows: Rows<R>, front: seq<R>, record: R, i: nat)
    requires Symmetric(k) && Admits(k, rows, front) && i < |front| && k.id(front[i]) == k.id(record) && k.id(record) !in rows
    ensures Admits(k, rows, front + [record]) <==> front[i] == record
  {
    var all := front + [record];
    assert all[|front|] == record && forall j :: 0 <= j < |front| ==> all[j] == front[j];
    if Admits(k, rows, all) {
      assert k.id(all[i]) == k.id(all[|front|]);
    }
    if front[i] == record {
      RepeatApart(k, rows, front, i);
      assert IdsAgree(k, rows, all) && NewFit(k, rows, all);
    }
  }

  lemma RepeatApart<R(!new)>(k: Kind<R>, rows: Rows<R>, front: seq<R>, i: nat)
    requires Symmetric(k) && NewApart(k, rows, front) && i < |front| && k.id(front[i]) !in rows
    ensures NewApart(k, rows, front + [front[i]])
  {
    var all := front + [front[i]];
    forall x, y | 0 <= x < y < |all| && k.id(all[x]) !in rows && k.id(all[y]) !in rows && k.id(all[x]) != k.id(all[y])
      ensures !k.clash(k.stored(all[x]), k.stored(all[y]))
    {
      if y == |front| {
        assert k.clash(k.stored(all[x]), k.stored(front[i])) == k.clash(k.stored(front[i]), k.stored(all[x]));
      }
    }
  }

  lemma LastNew<R>(k: Kind<R>, rows: Rows<R>, front: seq<R>, record: R)
    requires Admits(k, rows, front) && k.id(record) !in rows && forall i :: 0 <= i < |front| ==> k.id(front[i]) != k.id(record)
    ensures Admits(k, rows, front + [record]) <==>
              && k.fits(k.stored(record)) && k.linked(k.stored(record))
              && (forall id :: id in rows ==> !k.clash(k.stored(rows[id]), k.stored(record)))
              && (forall i :: 0 <= i < |front| && k.id(front[i]) !in rows ==> !k.clash(k.stored(front[i]), k.stored(record)))
  {
    var all := front + [record];
    assert all[|front|] == record && forall i :: 0 <= i < |front| ==> all[i] == front[i];
  }

  lemma {:induction false} AdmitsFront<R>(k: Kind<R>, rows: Rows<R>, front: seq<R>, record: R)
    requires Admits(k, rows, front + [record])
    ensures Admits(k, rows, front)
  {
    var all := front + [record];
    assert forall i :: 0 <= i < |front| ==> all[i] == front[i];
  }

  /**
   A batch is accepted exactly when no identifier would change its content and every
   new row fits and clashes with nothing; then rows are only added.
   */
  lemma {:induction false} InsertsIffAdmitted<R(!new)>(k: Kind<R>, rows: Rows<R>, batch: seq<R>)
    requires Symmetric(k)
    ensures InsertAll(k, rows, batch).Some? <==> Admits(k, rows, batch)
    ensures InsertAll(k, rows, batch).Some? ==> Grown(k, rows, batch, InsertAll(k, rows, batch).value)
    decreases |batch|
  {
    hide InsertImmutable, Admits, Grown, Symmetric;
    if batch == [] {
      NothingInserted(k, rows);
    } else {
      var front, record := batch[..|batch| - 1], batch[|batch| - 1];
      assert batch == front + [record];
      InsertsIffAdmitted(k, rows, front);
      var before := InsertAll(k, rows, front);
      if before.Some? {
        LastAdmitted(k, rows, front, before.value, record);
        if InsertImmutable(k, before.value, record).Some? {
          InsertGrows(k, rows, front, before.value, record);
        }
      } else if Admits(k, rows, batch) {
        AdmitsFront(k, rows, front, record);
      }
    }
  }

  lemma NothingInserted<R>(k: Kind<R>, rows: Rows<R>)
    ensures Admits(k, rows, []) && Grown(k, rows, [], rows)
  {
  }

  lemma {:induction false} AllPresent<R>(k: Kind<R>, rows: Rows<R>, batch: seq<R>)
    requires forall i :: 0 <= i < |batch| ==> k.id(batch[i]) in rows && rows[k.id(batch[i])] == batch[i]
    ensures InsertAll(k, rows, batch) == Some(rows)
    decreases |batch|
  {
    if batch != [] {
      AllPresent(k, rows, batch[..|batch| - 1]);
    }
  }

  /** Publishing a published list again succeeds and changes nothing, whatever else was published in between. */
  lemma ReplayChangesNothing<R(!new)>(k: Kind<R>, later: Kind<R>, rows: Rows<R>, batch: seq<R>, now: Rows<R>)
    requires Symmetric(k) && InsertAll(k, rows, batch).Some? && later.id == k.id
    requires forall id :: id in InsertAll(k, rows, batch).value ==> id in now && now[id] == InsertAll(k, rows, batch).value[id]
    ensures InsertAll(later, now, batch) == Some(now)
  {
    InsertsIffAdmitted(k, rows, batch);
    hide InsertAll;
    AllPresent(later, now, batch);
  }

  // ---------- what every table keeps ----------

  /** Identifiers match, columns fit, and no two stored rows clash. */
  ghost predicate Settled<R>(k: Kind<R>, rows: Rows<R>)
  {
    && (forall id :: id in rows ==> k.id(rows[id]) == id && k.fits(k.stored(rows[id])))
    && (forall a, b :: a in rows && b in rows && a != b ==> !k.clash(k.stored(rows[a]), k.stored(rows[b])))
  }

  lemma InsertKeepsSettled<R(!new)>(k: Kind<R>, rows: Rows<R>, record: R)
    requires Symmetric(k) && Settled(k, rows) && InsertImmutable(k, rows, record).Some?
    ensures Settled(k, InsertImmutable(k, rows, record).value)
  {
  }

  lemma {:induction false} InsertsKeepSettled<R(!new)>(k: Kind<R>, rows: Rows<R>, batch: seq<R>)
    requires Symmetric(k) && Settled(k, rows) && InsertAll(k, rows, batch).Some?
    ensures Settled(k, InsertAll(k, rows, batch).value)
    decreases |batch|
  {
    hide InsertImmutable, Settled, Symmetric;
    if batch != [] {
      InsertsKeepSettled(k, rows, batch[..|batch| - 1]);
      InsertKeepsSettled(k, InsertAll(k, rows, batch[..|batch| - 1]).value, batch[|batch| - 1]);
    }
  }

  // ---------- reading a table ----------

  /** The stored rows that meet a condition, once each, in some order. */
  ghost predicate Lists<R(!new)>(k: Kind<R>, rows: Rows<R>, where_: R -> bool, records: seq<R>)
  {
    && (forall v :: v in records <==> exists id :: id in rows && k.stored(rows[id]) == v && where_(v))
    && (forall i, j :: 0 <= i < j < |records| ==> k.id(records[i]) != k.id(records[j]))
  }

  /** SELECT .. WHERE: rows come in whatever order the database finds them. */
  method Select<R(==, !new)>(k: Kind<R>, rows: Rows<R>, where_: R -> bool) returns (records: seq<R>)
    requires forall id :: id in rows ==> k.id(k.stored(rows[id])) == id
    ensures Lists(k, rows, where_, records)
  {
    records := [];
    var todo := rows.Keys;
    while todo != {}
      invariant todo <= rows.Keys
      invariant forall v :: v in records <==> exists id :: id in rows && id !in todo && k.stored(rows[id]) == v && where_(v)
      invariant forall i :: 0 <= i < |records| ==> k.id(records[i]) in rows && k.id(records[i]) !in todo
      invariant forall i, j :: 0 <= i < j < |records| ==> k.id(records[i]) != k.id(records[j])
      decreases todo
    {
      var id :| id in todo;
      todo := todo - {id};
      var v := k.stored(rows[id]);
      if where_(v) {
        records := records + [v];
      }
    }
  }
}

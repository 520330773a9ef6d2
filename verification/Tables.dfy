/** A table of the CMDB: a bigserial primary key, one UNIQUE constraint over the key columns,
    and the statement INSERT ... ON CONFLICT (key) DO UPDATE ... RETURNING id. */
module Tables {
  datatype Row<K, V> = Row(key: K, cols: V)

  /** next is the value the table's sequence hands out next; it never goes back. */
  datatype Table<K(==), V> = Table(rows: map<nat, Row<K, V>>, next: nat) {

    ghost predicate Has(k: K) {
      exists id :: id in rows && rows[id].key == k
    }

    ghost function Id(k: K): (id: nat)
      requires Has(k)
      ensures id in rows && rows[id].key == k
    {
      var id :| id in rows && rows[id].key == k; id
    }

    /** The UNIQUE constraint, and no row ahead of the sequence. */
    ghost predicate Valid() {
      && (forall id :: id in rows ==> id < next)
      && (forall i, j :: i in rows && j in rows && rows[i].key == rows[j].key ==> i == j)
    }

    /** The row id that an upsert of k returns. */
    ghost function UpsertId(k: K): nat {
      if Has(k) then Id(k) else next
    }

    /** A conflicting row gets the columns `merged`, otherwise a new row gets `added`. The
        default nextval(...) is evaluated before the conflict is found, so a number is drawn
        either way. */
    ghost function Upsert(k: K, added: V, merged: V): Table<K, V> {
      Table(rows[UpsertId(k) := Row(k, if Has(k) then merged else added)], next + 1)
    }

    /** The columns now stored for k, or `fallback` when there is no such row. */
    ghost function ColsOr(k: K, fallback: V): V {
      if Has(k) then rows[Id(k)].cols else fallback
    }

    /** Same rows as `before`, with the sequence where this table left it: what a rollback leaves. */
    ghost function RolledBack(before: Table<K, V>): Table<K, V> {
      Table(before.rows, next)
    }

    /** A later state of a table: no row is deleted, none changes its key, and new rows have
        numbers that were not handed out before, not even to a transaction that failed. */
    ghost predicate Extends(before: Table<K, V>) {
      && before.next <= next
      && (forall id :: id in rows && id !in before.rows ==> before.next <= id)
      && forall id :: id in before.rows ==> id in rows && rows[id].key == before.rows[id].key
    }

    /** Same ids and keys. */
    ghost predicate SameKeys(other: Table<K, V>) {
      && rows.Keys == other.rows.Keys
      && forall id :: id in rows ==> rows[id].key == other.rows[id].key
    }
  }

  ghost function Empty<K, V>(): Table<K, V> {
    Table(map[], 1)
  }

  lemma IdUnique<K, V>(t: Table<K, V>, k: K, id: nat)
    requires t.Valid() && id in t.rows && t.rows[id].key == k
    ensures t.Has(k) && t.Id(k) == id
  {
  }

  /** An upsert leaves exactly one row for k and does not touch the others. */
  lemma UpsertKeepsValid<K, V>(t: Table<K, V>, k: K, added: V, merged: V)
    requires t.Valid()
    ensures var t', id := t.Upsert(k, added, merged), t.UpsertId(k);
      && t'.Valid() && t'.Extends(t)
      && id in t'.rows && t'.rows[id] == Row(k, if t.Has(k) then merged else added)
      && t'.Has(k) && t'.Id(k) == id
      && (forall i :: i in t'.rows && i != id ==> i in t.rows && t'.rows[i] == t.rows[i])
      && (t.Has(k) <==> id in t.rows)
  {
    var t', id := t.Upsert(k, added, merged), t.UpsertId(k);
    assert t'.rows[id].key == k;
    assert t'.Valid();
    IdUnique(t', k, id);
  }

  lemma UpsertSize<K, V>(t: Table<K, V>, k: K, added: V, merged: V)
    requires t.Valid()
    ensures var t' := t.Upsert(k, added, merged);
      if t.Has(k) then t'.SameKeys(t) && |t'.rows| == |t.rows| else |t'.rows| == |t.rows| + 1
  {
    var t', id := t.Upsert(k, added, merged), t.UpsertId(k);
    assert t'.rows.Keys == t.rows.Keys + {id};
    assert |t'.rows| == |t'.rows.Keys| && |t.rows| == |t.rows.Keys|;
  }

  lemma ExtendsTransitive<K, V>(x: Table<K, V>, y: Table<K, V>, z: Table<K, V>)
    requires y.Extends(x) && z.Extends(y)
    ensures z.Extends(x)
  {
  }

  lemma SelfExtends<K, V>(t: Table<K, V>)
    ensures t.Extends(t)
  {
  }

  lemma RolledBackExtends<K, V>(t: Table<K, V>, later: Table<K, V>)
    requires t.Valid() && later.Extends(t)
    ensures later.RolledBack(t).Valid() && later.RolledBack(t).Extends(t)
  {
  }

  lemma SameKeysSameIds<K, V>(s: Table<K, V>, t: Table<K, V>, k: K)
    requires s.Valid() && t.Valid() && s.SameKeys(t)
    ensures s.Has(k) <==> t.Has(k)
    ensures s.Has(k) ==> s.Id(k) == t.Id(k)
  {
    if s.Has(k) {
      IdUnique(t, k, s.Id(k));
    }
    if t.Has(k) {
      IdUnique(s, k, t.Id(k));
    }
  }

  lemma UpsertSameKeys<K, V>(s: Table<K, V>, t: Table<K, V>, k: K, added: V, merged: V, added': V, merged': V)
    requires s.Valid() && t.Valid() && t.SameKeys(s) && s.next == t.next
    ensures s.UpsertId(k) == t.UpsertId(k)
    ensures t.Upsert(k, added', merged').SameKeys(s.Upsert(k, added, merged))
  {
    SameKeysSameIds(t, s, k);
  }

  lemma ExtendsKeepsId<K, V>(t: Table<K, V>, t': Table<K, V>, k: K)
    requires t'.Valid() && t'.Extends(t) && t.Has(k)
    ensures t'.Has(k) && t'.Id(k) == t.Id(k)
  {
    IdUnique(t', k, t.Id(k));
  }
}

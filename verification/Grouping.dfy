/** Grouping dictionaries: {key: [element, ...]} filled in list order, with the keys in insertion
    order beside them. */
module Grouping {
  import opened Sorting

  function Keyed<T, K(==)>(keyOf: T -> K, k: K): T -> bool {
    (x: T) => keyOf(x) == k
  }

  /** The keys of a grouping dictionary, in insertion order. */
  function FirstSeen<T(!new), K(==, !new)>(rows: seq<T>, keyOf: T -> K): (keys: seq<K>)
    ensures forall k :: k in keys <==> exists r :: r in rows && keyOf(r) == k
    ensures Distinct(keys)
  {
    if rows == [] then [] else
    var n := |rows| - 1;
    var before := FirstSeen(rows[..n], keyOf);
    assert rows == rows[..n] + [rows[n]];
    if keyOf(rows[n]) in before then before else before + [keyOf(rows[n])]
  }

  lemma FirstSeenSnoc<T(!new), K(!new)>(rows: seq<T>, keyOf: T -> K, row: T)
    ensures var before := FirstSeen(rows, keyOf);
      FirstSeen(rows + [row], keyOf) == if keyOf(row) in before then before else before + [keyOf(row)]
  {
    assert (rows + [row])[..|rows|] == rows;
  }

  ghost predicate HoldsKeys<T(!new), K(!new)>(groups: map<K, seq<T>>, rows: seq<T>, keyOf: T -> K) {
    forall k :: k in groups <==> k in FirstSeen(rows, keyOf)
  }

  ghost predicate HoldsRows<T(!new), K(!new)>(groups: map<K, seq<T>>, rows: seq<T>, keyOf: T -> K) {
    forall k :: Filter(rows, Keyed(keyOf, k)) == if k in groups then groups[k] else []
  }

  ghost predicate Grouped<T(!new), K(!new)>(groups: map<K, seq<T>>, rows: seq<T>, keyOf: T -> K) {
    HoldsKeys(groups, rows, keyOf) && HoldsRows(groups, rows, keyOf)
  }

  /** groups[key].append(row) on a defaultdict. */
  function Appended<T, K(==)>(groups: map<K, seq<T>>, key: K, row: T): map<K, seq<T>> {
    groups[key := (if key in groups then groups[key] else []) + [row]]
  }

  lemma KeysStep<T(!new), K(!new)>(groups: map<K, seq<T>>, rows: seq<T>, keyOf: T -> K, row: T)
    requires HoldsKeys(groups, rows, keyOf)
    ensures HoldsKeys(Appended(groups, keyOf(row), row), rows + [row], keyOf)
    ensures FirstSeen(rows + [row], keyOf) ==
            FirstSeen(rows, keyOf) + if keyOf(row) in groups then [] else [keyOf(row)]
  {
    hide FirstSeen;
    FirstSeenSnoc(rows, keyOf, row);
  }

  lemma RowsStep<T(!new), K(!new)>(groups: map<K, seq<T>>, rows: seq<T>, keyOf: T -> K, row: T)
    requires HoldsRows(groups, rows, keyOf)
    ensures HoldsRows(Appended(groups, keyOf(row), row), rows + [row], keyOf)
  {
    hide Filter;
    var grown := Appended(groups, keyOf(row), row);
    forall k ensures Filter(rows + [row], Keyed(keyOf, k)) == if k in grown then grown[k] else [] {
      FilterSnoc(rows, row, Keyed(keyOf, k));
    }
  }

  lemma GroupsOfNothing<T(!new), K(!new)>(rows: seq<T>, keyOf: T -> K)
    requires rows == []
    ensures Grouped(map[], rows, keyOf) && FirstSeen(rows, keyOf) == []
  {
  }

  /** A grouping dictionary and its keys in insertion order. */
  method GroupRows<T(!new), K(==, !new)>(rows: seq<T>, keyOf: T -> K)
      returns (groups: map<K, seq<T>>, order: seq<K>)
    ensures order == FirstSeen(rows, keyOf)
    ensures Grouped(groups, rows, keyOf)
  {
    hide Filter, HoldsKeys, HoldsRows, FirstSeen, Appended;
    groups, order := map[], [];
    GroupsOfNothing(rows[..0], keyOf);
    for i := 0 to |rows|
      invariant order == FirstSeen(rows[..i], keyOf)
      invariant Grouped(groups, rows[..i], keyOf)
    {
      var row := rows[i];
      var key := keyOf(row);
      assert rows[..i + 1] == rows[..i] + [row];
      KeysStep(groups, rows[..i], keyOf, row);
      RowsStep(groups, rows[..i], keyOf, row);
      if key !in groups {
        order := order + [key];
      }
      groups := Appended(groups, key, row);
    }
    assert rows[..|rows|] == rows;
  }

  lemma GroupsOf<T(!new), K(!new)>(groups: map<K, seq<T>>, rows: seq<T>, keyOf: T -> K, k: K)
    requires Grouped(groups, rows, keyOf) && k in FirstSeen(rows, keyOf)
    ensures k in groups && groups[k] == Filter(rows, Keyed(keyOf, k))
    ensures forall r :: r in groups[k] ==> r in rows && keyOf(r) == k
  {
    FilterMembers(rows, Keyed(keyOf, k));
  }
}

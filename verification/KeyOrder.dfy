/** Named values: lists of them with distinct names, and sorting by name as Array.prototype.sort does. */
module KeyOrder {
  import opened Texts

  datatype Keyed<V> = Keyed(key: Text, value: V)

  predicate HasKey<V>(entries: seq<Keyed<V>>, key: Text) {
    entries != [] && (entries[0].key == key || HasKey(entries[1..], key))
  }

  predicate DistinctKeys<V>(entries: seq<Keyed<V>>) {
    entries == [] || (!HasKey(entries[1..], entries[0].key) && DistinctKeys(entries[1..]))
  }

  // ---------------------------------------------------------------------------------------
  // Sorting by name

  function Insert<V>(e: Keyed<V>, entries: seq<Keyed<V>>): (r: seq<Keyed<V>>)
    ensures |r| == |entries| + 1
  {
    if entries == [] || Before(e.key, entries[0].key) then [e] + entries
    else [entries[0]] + Insert(e, entries[1..])
  }

  function Sort<V>(entries: seq<Keyed<V>>): (r: seq<Keyed<V>>)
    ensures |r| == |entries|
  {
    if entries == [] then [] else Insert(entries[0], Sort(entries[1..]))
  }

  /** Keys strictly ascending. */
  predicate Sorted<V>(entries: seq<Keyed<V>>) {
    |entries| < 2 || (Before(entries[0].key, entries[1].key) && Sorted(entries[1..]))
  }

  lemma {:induction false} InsertKeys<V>(e: Keyed<V>, entries: seq<Keyed<V>>, key: Text)
    ensures HasKey(Insert(e, entries), key) <==> key == e.key || HasKey(entries, key)
  {
    var r := Insert(e, entries);
    if entries == [] || Before(e.key, entries[0].key) {
      assert r[1..] == entries;
    } else {
      InsertKeys(e, entries[1..], key);
      assert r[1..] == Insert(e, entries[1..]);
    }
  }

  lemma {:induction false} SortKeys<V>(entries: seq<Keyed<V>>, key: Text)
    ensures HasKey(Sort(entries), key) <==> HasKey(entries, key)
  {
    if entries != [] {
      SortKeys(entries[1..], key);
      InsertKeys(entries[0], Sort(entries[1..]), key);
    }
  }

  lemma {:induction false} InsertSorted<V>(e: Keyed<V>, entries: seq<Keyed<V>>)
    requires Sorted(entries) && !HasKey(entries, e.key)
    ensures Sorted(Insert(e, entries))
  {
    if entries == [] {
    } else if Before(e.key, entries[0].key) {
      assert Insert(e, entries)[1..] == entries;
    } else {
      BeforeIsTotal(e.key, entries[0].key);
      InsertSorted(e, entries[1..]);
      assert Insert(e, entries)[1..] == Insert(e, entries[1..]);
    }
  }

  lemma {:induction false} SortSorts<V>(entries: seq<Keyed<V>>)
    requires DistinctKeys(entries)
    ensures Sorted(Sort(entries))
  {
    if entries != [] {
      SortSorts(entries[1..]);
      SortKeys(entries[1..], entries[0].key);
      InsertSorted(entries[0], Sort(entries[1..]));
    }
  }

  lemma {:induction false} SortedIsFixed<V>(entries: seq<Keyed<V>>)
    requires Sorted(entries)
    ensures Sort(entries) == entries
  {
    if entries != [] {
      SortedIsFixed(entries[1..]);
    }
  }

  /** The first key of a sorted list comes before every other. */
  lemma {:induction false} HeadIsLeast<V>(entries: seq<Keyed<V>>, key: Text)
    requires entries != [] && Sorted(entries) && HasKey(entries[1..], key)
    ensures Before(entries[0].key, key)
  {
    if entries[1].key != key {
      HeadIsLeast(entries[1..], key);
      BeforeIsTransitive(entries[0].key, entries[1].key, key);
    }
  }

  lemma {:induction false} SortedIsDistinct<V>(entries: seq<Keyed<V>>)
    requires Sorted(entries)
    ensures DistinctKeys(entries)
  {
    if entries != [] {
      SortedIsDistinct(entries[1..]);
      if HasKey(entries[1..], entries[0].key) {
        HeadIsLeast(entries, entries[0].key);
        BeforeIsStrict(entries[0].key, entries[0].key);
      }
    }
  }

  lemma {:induction false} SortMember<V>(entries: seq<Keyed<V>>, e: Keyed<V>)
    ensures e in Sort(entries) <==> e in entries
  {
    if entries != [] {
      SortMember(entries[1..], e);
      InsertMember(entries[0], Sort(entries[1..]), e);
      assert entries == [entries[0]] + entries[1..];
    }
  }

  lemma {:induction false} InsertMember<V>(e: Keyed<V>, entries: seq<Keyed<V>>, x: Keyed<V>)
    ensures x in Insert(e, entries) <==> x == e || x in entries
  {
    if entries == [] || Before(e.key, entries[0].key) {
    } else {
      InsertMember(e, entries[1..], x);
      assert entries == [entries[0]] + entries[1..];
    }
  }

  lemma {:induction false} InsertKeepsDistinct<V>(e: Keyed<V>, entries: seq<Keyed<V>>)
    requires DistinctKeys(entries) && !HasKey(entries, e.key)
    ensures DistinctKeys(Insert(e, entries))
  {
    var r := Insert(e, entries);
    if entries == [] || Before(e.key, entries[0].key) {
      assert r[1..] == entries;
    } else {
      InsertKeepsDistinct(e, entries[1..]);
      InsertKeys(e, entries[1..], entries[0].key);
      assert r[1..] == Insert(e, entries[1..]);
    }
  }

  lemma {:induction false} MemberHasKey<V>(entries: seq<Keyed<V>>, e: Keyed<V>)
    requires e in entries
    ensures HasKey(entries, e.key)
  {
    if entries[0] != e {
      assert entries == [entries[0]] + entries[1..];
      MemberHasKey(entries[1..], e);
    }
  }

  /** Members of a sorted list after its head come strictly after it. */
  lemma TailAfterHead<V>(entries: seq<Keyed<V>>, e: Keyed<V>)
    requires entries != [] && Sorted(entries) && e in entries[1..]
    ensures Before(entries[0].key, e.key) && e.key != entries[0].key
  {
    MemberHasKey(entries[1..], e);
    HeadIsLeast(entries, e.key);
    BeforeIsStrict(entries[0].key, e.key);
  }

  lemma HeadsAgree<V>(a: seq<Keyed<V>>, b: seq<Keyed<V>>)
    requires a != [] && b != [] && Sorted(a) && Sorted(b) && a[0] in b && b[0] in a
    ensures a[0] == b[0]
  {
    assert a == [a[0]] + a[1..] && b == [b[0]] + b[1..];
    if a[0] != b[0] {
      TailAfterHead(b, a[0]);
      TailAfterHead(a, b[0]);
      BeforeIsStrict(a[0].key, b[0].key);
    }
  }

  lemma BothEmpty<V>(a: seq<Keyed<V>>, b: seq<Keyed<V>>)
    requires forall e :: e in a <==> e in b
    ensures a == [] <==> b == []
  {
    if a != [] {
      var e := a[0];
      assert e in a;
    }
    if b != [] {
      var e := b[0];
      assert e in b;
    }
  }

  lemma {:induction false} SortedByMembers<V>(a: seq<Keyed<V>>, b: seq<Keyed<V>>)
    requires Sorted(a) && Sorted(b) && forall e :: e in a <==> e in b
    ensures a == b
  {
    BothEmpty(a, b);
    if a != [] {
      HeadsAgree(a, b);
      assert a == [a[0]] + a[1..] && b == [b[0]] + b[1..];
      forall e ensures e in a[1..] <==> e in b[1..] {
        if e in a[1..] {
          TailAfterHead(a, e);
          assert e in b;
        }
        if e in b[1..] {
          TailAfterHead(b, e);
          assert e in a;
        }
      }
      SortedByMembers(a[1..], b[1..]);
    }
  }

  /** Sorting forgets the order in which properties were defined. */
  lemma SortIgnoresOrder<V>(a: seq<Keyed<V>>, b: seq<Keyed<V>>)
    requires DistinctKeys(a) && DistinctKeys(b) && forall e :: e in a <==> e in b
    ensures Sort(a) == Sort(b)
  {
    SortSorts(a);
    SortSorts(b);
    forall e ensures e in Sort(a) <==> e in Sort(b) {
      SortMember(a, e);
      SortMember(b, e);
    }
    SortedByMembers(Sort(a), Sort(b));
  }
}

/** The SKU map toOCI buffers its records in (src/translator.js:42): a
    JavaScript `Map` from SKU to the list of records seen for it, iterated in
    key-insertion order when the file is written. It is modelled as a
    sequence of groups, one per key, in insertion order.

    The reference side is the plain arrival sequence `rs` of records: the map
    built from `rs` holds, for each SKU in first-seen order, exactly the
    records of `rs` with that SKU, in arrival order. */
module SkuMap {
  import opened Inventory

  datatype SkuGroup = SkuGroup(sku: string, records: seq<AvailabilityRecord>)

  /** The keys of the map, in insertion order. */
  function Keys(m: seq<SkuGroup>): seq<string> {
    seq(|m|, i requires 0 <= i < |m| => m[i].sku)
  }

  /** `skuMap.get(sku) || []`. */
  function Get(m: seq<SkuGroup>, k: string): seq<AvailabilityRecord> {
    if m == [] then []
    else if m[0].sku == k then m[0].records
    else Get(m[1..], k)
  }

  /** A map as the translator builds it: distinct keys, and every group
      non-empty and made of records carrying its key. */
  predicate Valid(m: seq<SkuGroup>) {
    && (forall i, j :: 0 <= i < j < |m| ==> m[i].sku != m[j].sku)
    && (forall i :: 0 <= i < |m| ==> m[i].records != [])
    && (forall i, x :: 0 <= i < |m| && x in m[i].records ==> x.sku == m[i].sku)
  }

  /** Appending `r` to its SKU's list and storing the list back
      (src/translator.js:83, 106-107): the key order is kept, or `r.sku` is
      added last when new, and only `r.sku`'s list changes, by `r` at its end. */
  function Put(m: seq<SkuGroup>, r: AvailabilityRecord): (m': seq<SkuGroup>)
    ensures Keys(m') == if r.sku in Keys(m) then Keys(m) else Keys(m) + [r.sku]
    ensures forall k :: Get(m', k) == Get(m, k) + (if k == r.sku then [r] else [])
    ensures Valid(m) ==> Valid(m')
  {
    if m == [] then [SkuGroup(r.sku, [r])]
    else if m[0].sku == r.sku then
      var m' := [SkuGroup(r.sku, m[0].records + [r])] + m[1..];
      assert Keys(m') == Keys(m) && Keys(m)[0] == r.sku;
      PutFirstValid(m, r);
      m'
    else
      var rest := Put(m[1..], r);
      assert Keys([m[0]] + rest) == [m[0].sku] + Keys(rest);
      assert Keys(m) == [m[0].sku] + Keys(m[1..]);
      PutLaterValid(m, r, rest);
      [m[0]] + rest
  }

  lemma PutFirstValid(m: seq<SkuGroup>, r: AvailabilityRecord)
    requires m != [] && m[0].sku == r.sku
    ensures Valid(m) ==> Valid([SkuGroup(r.sku, m[0].records + [r])] + m[1..])
  {
    if Valid(m) {
      ValidTail(m);
      ValidCons(SkuGroup(r.sku, m[0].records + [r]), m[1..]);
    }
  }

  lemma PutLaterValid(m: seq<SkuGroup>, r: AvailabilityRecord, rest: seq<SkuGroup>)
    requires m != [] && m[0].sku != r.sku
    requires Keys(rest) == if r.sku in Keys(m[1..]) then Keys(m[1..]) else Keys(m[1..]) + [r.sku]
    requires Valid(m[1..]) ==> Valid(rest)
    ensures Valid(m) ==> Valid([m[0]] + rest)
  {
    if Valid(m) {
      ValidTail(m);
      ValidCons(m[0], rest);
    }
  }

  /** The records of `rs` with SKU `k`, in arrival order. */
  function Select(rs: seq<AvailabilityRecord>, k: string): seq<AvailabilityRecord> {
    if rs == [] then []
    else Select(rs[..|rs|-1], k) + (if rs[|rs|-1].sku == k then [rs[|rs|-1]] else [])
  }

  /** The distinct SKUs of `rs`, in the order of their first occurrence. */
  function FirstSeen(rs: seq<AvailabilityRecord>): seq<string> {
    if rs == [] then []
    else
      var seen := FirstSeen(rs[..|rs|-1]);
      if rs[|rs|-1].sku in seen then seen else seen + [rs[|rs|-1].sku]
  }

  /** The map built by putting the records of `rs` one after the other into
      an empty map: its keys are the SKUs in first-seen order and each key's
      list is the selection of `rs` for it. */
  function Group(rs: seq<AvailabilityRecord>): (m: seq<SkuGroup>)
    ensures Valid(m)
    ensures Keys(m) == FirstSeen(rs)
    ensures forall k :: Get(m, k) == Select(rs, k)
  {
    if rs == [] then []
    else Put(Group(rs[..|rs|-1]), rs[|rs|-1])
  }

  /** The records of the map's lists, list after list, in key order
      (src/translator.js:112-121). */
  function Flatten(m: seq<SkuGroup>): seq<AvailabilityRecord> {
    if m == [] then [] else Flatten(m[..|m|-1]) + m[|m|-1].records
  }

  /** Equal SKUs occupy one contiguous run. */
  predicate Contiguous(s: seq<AvailabilityRecord>) {
    forall i, j, l :: 0 <= i < j < l < |s| && s[i].sku == s[l].sku ==> s[j].sku == s[i].sku
  }

  // ---------------------------------------------------------------------
  // Helper facts about the reference functions.

  lemma SelectAppend(a: seq<AvailabilityRecord>, b: seq<AvailabilityRecord>, k: string)
    ensures Select(a + b, k) == Select(a, k) + Select(b, k)
    decreases |b|
  {
    if b == [] {
      assert a + b == a;
    } else {
      var b' := b[..|b|-1];
      assert (a + b)[..|a + b| - 1] == a + b';
      SelectAppend(a, b', k);
    }
  }

  lemma SelectUniform(b: seq<AvailabilityRecord>, key: string, k: string)
    requires forall x :: x in b ==> x.sku == key
    ensures Select(b, k) == if k == key then b else []
    decreases |b|
  {
    if b != [] {
      var b' := b[..|b|-1];
      assert forall x :: x in b' ==> x in b;
      SelectUniform(b', key, k);
      assert b' + [b[|b|-1]] == b;
    }
  }

  lemma SelectCount(a: seq<AvailabilityRecord>, x: AvailabilityRecord)
    ensures multiset(Select(a, x.sku))[x] == multiset(a)[x]
    decreases |a|
  {
    if a != [] {
      var a' := a[..|a|-1];
      SelectCount(a', x);
      assert a == a' + [a[|a|-1]];
    }
  }

  lemma FirstSeenMembers(rs: seq<AvailabilityRecord>, k: string)
    ensures k in FirstSeen(rs) <==> exists x :: x in rs && x.sku == k
    decreases |rs|
  {
    if rs != [] {
      var rs' := rs[..|rs|-1];
      FirstSeenMembers(rs', k);
      assert rs == rs' + [rs[|rs|-1]];
      assert forall x :: x in rs <==> x in rs' || x == rs[|rs|-1];
    }
  }

  lemma FirstSeenAppendUniform(a: seq<AvailabilityRecord>, b: seq<AvailabilityRecord>, key: string)
    requires b != []
    requires forall x :: x in b ==> x.sku == key
    requires forall x :: x in a ==> x.sku != key
    ensures FirstSeen(a + b) == FirstSeen(a) + [key]
    decreases |b|
  {
    var b' := b[..|b|-1];
    assert (a + b)[..|a + b| - 1] == a + b';
    assert b[|b|-1] in b;
    if b' == [] {
      assert a + b' == a;
      FirstSeenMembers(a, key);
    } else {
      assert forall x :: x in b' ==> x in b;
      FirstSeenAppendUniform(a, b', key);
    }
  }

  lemma GetAbsent(m: seq<SkuGroup>, k: string)
    requires k !in Keys(m)
    ensures Get(m, k) == []
    decreases |m|
  {
    if m != [] {
      assert Keys(m) == [m[0].sku] + Keys(m[1..]);
      GetAbsent(m[1..], k);
    }
  }

  lemma GetSnoc(p: seq<SkuGroup>, g: SkuGroup, k: string)
    ensures Get(p + [g], k) == if k in Keys(p) then Get(p, k) else if g.sku == k then g.records else []
    decreases |p|
  {
    if p == [] {
      assert p + [g] == [g];
    } else {
      assert (p + [g])[1..] == p[1..] + [g];
      assert Keys(p) == [p[0].sku] + Keys(p[1..]);
      GetSnoc(p[1..], g, k);
    }
  }

  lemma ValidTail(m: seq<SkuGroup>)
    requires Valid(m) && m != []
    ensures Valid(m[1..])
    ensures m[0].sku !in Keys(m[1..])
    ensures m[0].records != [] && forall x :: x in m[0].records ==> x.sku == m[0].sku
  {
    var t := m[1..];
    forall i, x | 0 <= i < |t| && x in t[i].records
      ensures x.sku == t[i].sku
    {
      assert t[i] == m[i + 1];
    }
    forall i | 0 <= i < |t|
      ensures Keys(t)[i] != m[0].sku
    {
      assert t[i] == m[i + 1];
    }
  }

  lemma ValidCons(g: SkuGroup, t: seq<SkuGroup>)
    requires Valid(t)
    requires g.records != [] && forall x :: x in g.records ==> x.sku == g.sku
    requires g.sku !in Keys(t)
    ensures Valid([g] + t)
  {
    var m := [g] + t;
    forall i, j | 0 <= i < j < |m|
      ensures m[i].sku != m[j].sku
    {
      assert m[j] == t[j - 1];
      if i > 0 {
        assert m[i] == t[i - 1];
      } else {
        assert Keys(t)[j - 1] == t[j - 1].sku;
      }
    }
    forall i, x | 0 <= i < |m| && x in m[i].records
      ensures x.sku == m[i].sku
    {
      if i > 0 {
        assert m[i] == t[i - 1];
      }
    }
    forall i | 0 <= i < |m|
      ensures m[i].records != []
    {
      if i > 0 {
        assert m[i] == t[i - 1];
      }
    }
  }

  lemma ValidPrefix(m: seq<SkuGroup>)
    requires Valid(m) && m != []
    ensures Valid(m[..|m|-1])
    ensures m[|m|-1].sku !in Keys(m[..|m|-1])
    ensures forall x :: x in m[|m|-1].records ==> x.sku == m[|m|-1].sku
  {
    var p := m[..|m|-1];
    forall i, x | 0 <= i < |p| && x in p[i].records
      ensures x.sku == p[i].sku
    {
      assert p[i] == m[i];
    }
  }

  lemma FlattenSkus(m: seq<SkuGroup>)
    requires Valid(m)
    ensures forall x :: x in Flatten(m) ==> x.sku in Keys(m)
    decreases |m|
  {
    if m != [] {
      var p := m[..|m|-1];
      ValidPrefix(m);
      FlattenSkus(p);
      assert Keys(m) == Keys(p) + [m[|m|-1].sku];
    }
  }

  lemma ContiguousAppend(a: seq<AvailabilityRecord>, b: seq<AvailabilityRecord>, key: string)
    requires Contiguous(a)
    requires forall x :: x in b ==> x.sku == key
    requires forall x :: x in a ==> x.sku != key
    ensures Contiguous(a + b)
  {
    var s := a + b;
    forall i, j, l | 0 <= i < j < l < |s| && s[i].sku == s[l].sku
      ensures s[j].sku == s[i].sku
    {
      if l < |a| {
        assert s[i] == a[i] && s[j] == a[j] && s[l] == a[l];
      } else if i >= |a| {
        assert s[i] == b[i - |a|] && s[j] == b[j - |a|];
      } else {
        assert false;
      }
    }
  }

  lemma SameSelectionsSameMultiset(a: seq<AvailabilityRecord>, b: seq<AvailabilityRecord>)
    requires forall k :: Select(a, k) == Select(b, k)
    ensures multiset(a) == multiset(b)
  {
    forall x | true
      ensures multiset(a)[x] == multiset(b)[x]
    {
      SelectCount(a, x);
      SelectCount(b, x);
      assert Select(a, x.sku) == Select(b, x.sku);
    }
  }

  // ---------------------------------------------------------------------
  // What writing the map out produces.

  /** Flattening a valid map selects, for each SKU, exactly that SKU's list. */
  lemma {:induction false} SelectFlatten(m: seq<SkuGroup>, k: string)
    requires Valid(m)
    ensures Select(Flatten(m), k) == Get(m, k)
    decreases |m|
  {
    if m != [] {
      var p, g := m[..|m|-1], m[|m|-1];
      assert m == p + [g];
      ValidPrefix(m);
      SelectFlatten(p, k);
      SelectAppend(Flatten(p), g.records, k);
      SelectUniform(g.records, g.sku, k);
      GetSnoc(p, g, k);
      if k !in Keys(p) {
        GetAbsent(p, k);
      }
    }
  }

  /** Flattening a valid map lists its keys, in key order, as first-seen SKUs. */
  lemma {:induction false} FirstSeenFlatten(m: seq<SkuGroup>)
    requires Valid(m)
    ensures FirstSeen(Flatten(m)) == Keys(m)
    decreases |m|
  {
    if m != [] {
      var p, g := m[..|m|-1], m[|m|-1];
      ValidPrefix(m);
      FirstSeenFlatten(p);
      FlattenSkus(p);
      FirstSeenAppendUniform(Flatten(p), g.records, g.sku);
      assert Keys(m) == Keys(p) + [g.sku];
    }
  }

  /** Flattening a valid map keeps each SKU in one run. */
  lemma {:induction false} ContiguousFlatten(m: seq<SkuGroup>)
    requires Valid(m)
    ensures Contiguous(Flatten(m))
    decreases |m|
  {
    if m != [] {
      var p, g := m[..|m|-1], m[|m|-1];
      ValidPrefix(m);
      ContiguousFlatten(p);
      FlattenSkus(p);
      ContiguousAppend(Flatten(p), g.records, g.sku);
    }
  }

  /** The file written from the map holds the records that went in, each as
      often as it went in. */
  lemma {:induction false} GroupedIsPermutation(rs: seq<AvailabilityRecord>)
    ensures multiset(Flatten(Group(rs))) == multiset(rs)
  {
    forall k | true
      ensures Select(Flatten(Group(rs)), k) == Select(rs, k)
    {
      SelectFlatten(Group(rs), k);
    }
    SameSelectionsSameMultiset(Flatten(Group(rs)), rs);
  }

  /** In the file written from the map, records with equal SKUs are adjacent. */
  lemma {:induction false} GroupedIsContiguous(rs: seq<AvailabilityRecord>)
    ensures Contiguous(Flatten(Group(rs)))
  {
    ContiguousFlatten(Group(rs));
  }

  /** The SKUs of the written file come in the order in which they were first
      seen among the records that went in. */
  lemma {:induction false} GroupedFollowsFirstSeen(rs: seq<AvailabilityRecord>)
    ensures FirstSeen(Flatten(Group(rs))) == FirstSeen(rs)
  {
    FirstSeenFlatten(Group(rs));
  }

  /** Within one SKU, the written file keeps the arrival order. */
  lemma {:induction false} GroupedKeepsArrivalOrder(rs: seq<AvailabilityRecord>, k: string)
    ensures Select(Flatten(Group(rs)), k) == Select(rs, k)
  {
    SelectFlatten(Group(rs), k);
  }
}

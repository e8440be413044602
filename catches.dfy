/** Catch lists: the `catchDetails` of a pending process, the grouping
    that sums quantities per catch number through a plain JavaScript
    object, and the comparators both catch tables sort with. */
module Catches {
  import opened Common
  import opened JsText
  import opened StableSort

  /** One entry of `catchDetails`. A missing catch number is modelled as
      the empty string: both are falsy and both sort as `''`. */
  datatype CatchDetail = CatchDetail(catchNo: string, quantity: Option<int>)

  // ---------------------------------------------------------------------
  // Property order of a plain object

  /** An array index key: the canonical decimal text of an integer below
      2^32 - 1. Such keys are listed before all others. */
  predicate IsArrayIndex(k: string)
  {
    && k != []
    && (forall i :: 0 <= i < |k| ==> '0' <= k[i] <= '9')
    && (k[0] == '0' ==> |k| == 1)
    && DecimalValue(k) < 0xFFFF_FFFF
  }

  function IndexLt(a: string, b: string): bool
  {
    DecimalValue(a) < DecimalValue(b)
  }

  /** The order `Object.entries` lists own keys in: array index keys in
      ascending numeric order, then the other keys in insertion order. */
  function OwnKeys(insertion: seq<string>): seq<string>
  {
    SortBy(Select(insertion, IsArrayIndex), IndexLt) + Select(insertion, Not(IsArrayIndex))
  }

  /** A plain object whose values are numbers: its keys in insertion order
      and its values. */
  datatype NumberObject = NumberObject(order: seq<string>, values: map<string, int>)
  {
    ghost predicate Valid()
    {
      && (forall k :: k in values <==> k in order)
      && Distinct(order)
    }

    /** `obj[k] = v`: a new key goes to the end of the insertion order, an
        existing key keeps its place. */
    function Put(k: string, v: int): (o: NumberObject)
      ensures o.values == values[k := v]
      ensures k in values ==> o.order == order
      ensures k !in values ==> o.order == order + [k]
    {
      NumberObject(if k in values then order else order + [k], values[k := v])
    }

    /** `Object.entries(obj)`. */
    function Entries(): (r: seq<(string, int)>)
      requires Valid()
      ensures |r| == |order|
    {
      var keys := OwnKeys(order);
      OwnKeysPermutes(order);
      assert forall j :: 0 <= j < |keys| ==> keys[j] in multiset(order);
      seq(|keys|, j requires 0 <= j < |keys| => (keys[j], values[keys[j]]))
    }
  }

  const EmptyObject: NumberObject := NumberObject([], map[])

  /** No key occurs twice. */
  ghost predicate Distinct(s: seq<string>)
  {
    forall k :: multiset(s)[k] <= 1
  }

  lemma OwnKeysPermutes(insertion: seq<string>)
    ensures multiset(OwnKeys(insertion)) == multiset(insertion)
  {
    SortByPermutes(Select(insertion, IsArrayIndex), IndexLt);
    SelectSplit(insertion, IsArrayIndex);
  }

  // ---------------------------------------------------------------------
  // groupCatchDetails

  /** Catch numbers in the order they first occur, empty ones skipped: the
      insertion order of the grouping object. */
  function SeenKeys(ds: seq<CatchDetail>): seq<string>
  {
    if ds == [] then []
    else
      var seen := SeenKeys(ds[..|ds| - 1]);
      var k := ds[|ds| - 1].catchNo;
      if k == "" || k in seen then seen else seen + [k]
  }

  /** Sum of `quantity || 0` over the entries with catch number `k`. */
  function SumFor(ds: seq<CatchDetail>, k: string): int
  {
    if ds == [] then 0
    else SumFor(ds[..|ds| - 1], k) + (if ds[|ds| - 1].catchNo == k then OrZero(ds[|ds| - 1].quantity) else 0)
  }

  /** What `groupCatchDetails` returns: one entry per non-empty catch
      number, in `Object.entries` order, with the summed quantity. */
  function Grouped(ds: seq<CatchDetail>): (r: seq<CatchDetail>)
    ensures |r| == |SeenKeys(ds)|
    ensures forall j :: 0 <= j < |r| ==> r[j].catchNo in SeenKeys(ds)
    ensures forall j :: 0 <= j < |r| ==> r[j].quantity == Some(SumFor(ds, r[j].catchNo))
  {
    var keys := OwnKeys(SeenKeys(ds));
    KeysFromSeen(ds);
    seq(|keys|, j requires 0 <= j < |keys| => CatchDetail(keys[j], Some(SumFor(ds, keys[j]))))
  }

  lemma KeysFromSeen(ds: seq<CatchDetail>)
    ensures |OwnKeys(SeenKeys(ds))| == |SeenKeys(ds)|
    ensures forall j :: 0 <= j < |OwnKeys(SeenKeys(ds))| ==> OwnKeys(SeenKeys(ds))[j] in SeenKeys(ds)
  {
    var seen := SeenKeys(ds);
    var keys := OwnKeys(seen);
    OwnKeysPermutes(seen);
    assert |keys| == |multiset(keys)| == |seen|;
    forall j | 0 <= j < |keys| ensures keys[j] in seen {
      assert keys[j] in multiset(keys);
    }
  }

  /** The `forEach` callback of `groupCatchDetails`: an entry with a falsy
      catch number is skipped; `if (!map[k]) map[k] = 0` also fires on a
      running sum of 0, where it changes nothing; then the quantity, or 0,
      is added. */
  function Tally(obj: NumberObject, cd: CatchDetail): NumberObject
  {
    if cd.catchNo == "" then obj
    else
      var k := cd.catchNo;
      var started := if k !in obj.values || obj.values[k] == 0 then obj.Put(k, 0) else obj;
      started.Put(k, started.values[k] + OrZero(cd.quantity))
  }

  /** The grouping object after the callback has run over `prefix`. */
  ghost predicate TalliedFrom(prefix: seq<CatchDetail>, obj: NumberObject)
  {
    && obj.Valid()
    && obj.order == SeenKeys(prefix)
    && "" !in obj.values
    && (forall k :: k in obj.values ==> obj.values[k] == SumFor(prefix, k))
  }

  lemma TallyStep(prefix: seq<CatchDetail>, cd: CatchDetail, obj: NumberObject)
    requires TalliedFrom(prefix, obj)
    ensures TalliedFrom(prefix + [cd], Tally(obj, cd))
  {
    var ds := prefix + [cd];
    assert ds[..|ds| - 1] == prefix;
    var k := cd.catchNo;
    if k != "" && k !in obj.values {
      UnseenSumsZero(prefix, k);
      assert multiset(obj.order + [k])[k] == 1;
    }
    var o := Tally(obj, cd);
    forall x | x in o.values ensures o.values[x] == SumFor(ds, x) {
      assert SumFor(ds, x) == SumFor(prefix, x) + (if k == x then OrZero(cd.quantity) else 0);
    }
  }

  lemma TallyStart(ds: seq<CatchDetail>)
    ensures TalliedFrom(ds[..0], EmptyObject)
  {
    assert ds[..0] == [];
  }

  lemma TallyAt(ds: seq<CatchDetail>, i: nat, obj: NumberObject)
    requires i < |ds| && TalliedFrom(ds[..i], obj)
    ensures TalliedFrom(ds[..i + 1], Tally(obj, ds[i]))
  {
    TallyStep(ds[..i], ds[i], obj);
    assert ds[..i + 1] == ds[..i] + [ds[i]];
  }

  lemma TallyDone(ds: seq<CatchDetail>, obj: NumberObject)
    requires TalliedFrom(ds[..|ds|], obj)
    ensures TalliedFrom(ds, obj)
  {
    assert ds[..|ds|] == ds;
  }

  /** `groupCatchDetails(catchDetails)`. */
  method GroupCatchDetails(ds: seq<CatchDetail>) returns (r: seq<CatchDetail>)
    ensures r == Grouped(ds)
  {
    var obj := EmptyObject;
    var i := 0;
    TallyStart(ds);
    while i < |ds|
      invariant 0 <= i <= |ds|
      invariant TalliedFrom(ds[..i], obj)
    {
      TallyAt(ds, i, obj);
      obj := Tally(obj, ds[i]);
      i := i + 1;
    }
    TallyDone(ds, obj);
    var entries := obj.Entries();
    r := AsDetails(entries);
    EntriesGrouped(ds, obj);
  }

  /** `entries.map(([catchNo, quantity]) => ({ catchNo, quantity }))` */
  function AsDetails(entries: seq<(string, int)>): (r: seq<CatchDetail>)
    ensures |r| == |entries|
    ensures forall j :: 0 <= j < |r| ==> r[j] == CatchDetail(entries[j].0, Some(entries[j].1))
  {
    seq(|entries|, j requires 0 <= j < |entries| => CatchDetail(entries[j].0, Some(entries[j].1)))
  }

  /** The entries of the finished grouping object are the grouped list. */
  lemma EntriesGrouped(ds: seq<CatchDetail>, obj: NumberObject)
    requires TalliedFrom(ds, obj)
    ensures AsDetails(obj.Entries()) == Grouped(ds)
  {
    var r := AsDetails(obj.Entries());
    var keys := OwnKeys(obj.order);
    OwnKeysPermutes(obj.order);
    forall j | 0 <= j < |r| ensures r[j] == Grouped(ds)[j] {
      assert keys[j] in multiset(obj.order);
    }
  }

  /** A catch number not yet seen has contributed nothing. */
  lemma {:induction false} UnseenSumsZero(ds: seq<CatchDetail>, k: string)
    requires k != "" && k !in SeenKeys(ds)
    ensures SumFor(ds, k) == 0
  {
    if ds != [] {
      UnseenSumsZero(ds[..|ds| - 1], k);
    }
  }

  /** The catch numbers present in a list, empty ones excluded. */
  function CatchNumbers(ds: seq<CatchDetail>): set<string>
  {
    set i | 0 <= i < |ds| && ds[i].catchNo != "" :: ds[i].catchNo
  }

  lemma {:induction false} SeenKeysSpec(ds: seq<CatchDetail>)
    ensures Distinct(SeenKeys(ds))
    ensures forall k :: k in SeenKeys(ds) <==> k in CatchNumbers(ds)
  {
    if ds != [] {
      var init := ds[..|ds| - 1];
      SeenKeysSpec(init);
      var k := ds[|ds| - 1].catchNo;
      assert CatchNumbers(ds) == CatchNumbers(init) + (if k == "" then {} else {k}) by {
        forall x | x in CatchNumbers(ds) ensures x in CatchNumbers(init) + (if k == "" then {} else {k}) {
          var i :| 0 <= i < |ds| && ds[i].catchNo != "" && ds[i].catchNo == x;
          if i < |ds| - 1 {
            assert init[i] == ds[i];
          }
        }
        forall x | x in CatchNumbers(init) ensures x in CatchNumbers(ds) {
          var i :| 0 <= i < |init| && init[i].catchNo != "" && init[i].catchNo == x;
          assert ds[i] == init[i];
        }
      }
      var seen := SeenKeys(init);
      if k != "" && k !in seen {
        assert multiset(seen + [k]) == multiset(seen) + multiset{k};
      }
    }
  }

  lemma DistinctPositions(s: seq<string>, i: nat, j: nat)
    requires Distinct(s) && i < j < |s|
    ensures s[i] != s[j]
  {
    assert s == s[..j] + s[j..];
    assert multiset(s) == multiset(s[..j]) + multiset(s[j..]);
    assert s[i] in multiset(s[..j]);
    assert s[j] in multiset(s[j..]);
    assert multiset(s)[s[i]] <= 1;
    assert multiset(s)[s[i]] == multiset(s[..j])[s[i]] + multiset(s[j..])[s[i]];
  }

  /** `groupCatchDetails` lists every non-empty catch number of its input
      exactly once, and nothing else. */
  lemma GroupedKeys(ds: seq<CatchDetail>)
    ensures var r := Grouped(ds);
      && (set j | 0 <= j < |r| :: r[j].catchNo) == CatchNumbers(ds)
      && (forall i, j :: 0 <= i < j < |r| ==> r[i].catchNo != r[j].catchNo)
      && (forall j :: 0 <= j < |r| ==> r[j].quantity.Some?)
  {
    var r := Grouped(ds);
    var seen := SeenKeys(ds);
    var keys := OwnKeys(seen);
    SeenKeysSpec(ds);
    OwnKeysPermutes(seen);
    forall x ensures x in (set j | 0 <= j < |r| :: r[j].catchNo) <==> x in CatchNumbers(ds) {
      if x in multiset(keys) {
        var j :| 0 <= j < |keys| && keys[j] == x;
        assert r[j].catchNo == x;
      }
    }
    assert Distinct(keys);
    forall i, j | 0 <= i < j < |r| ensures r[i].catchNo != r[j].catchNo {
      DistinctPositions(keys, i, j);
    }
  }

  // ---------------------------------------------------------------------
  // Conservation of quantity

  /** Sum of `quantity || 0` over the entries with a non-empty catch number. */
  function CountedQuantity(ds: seq<CatchDetail>): int
  {
    if ds == [] then 0
    else CountedQuantity(ds[..|ds| - 1]) + (if ds[|ds| - 1].catchNo != "" then OrZero(ds[|ds| - 1].quantity) else 0)
  }

  /** Sum of `quantity || 0` down a list. */
  function QuantitySum(entries: seq<CatchDetail>): int
  {
    if entries == [] then 0 else OrZero(entries[0].quantity) + QuantitySum(entries[1..])
  }

  function SumKeys(ds: seq<CatchDetail>, keys: seq<string>): int
  {
    if keys == [] then 0 else SumFor(ds, keys[0]) + SumKeys(ds, keys[1..])
  }

  lemma {:induction false} SumKeysAppend(ds: seq<CatchDetail>, a: seq<string>, b: seq<string>)
    ensures SumKeys(ds, a + b) == SumKeys(ds, a) + SumKeys(ds, b)
    decreases |a|
  {
    if a == [] {
      assert a + b == b;
    } else {
      assert (a + b)[1..] == a[1..] + b;
      SumKeysAppend(ds, a[1..], b);
    }
  }

  /** The sum over a set of keys does not depend on their order. */
  lemma {:induction false} SumKeysPermutation(ds: seq<CatchDetail>, a: seq<string>, b: seq<string>)
    requires multiset(a) == multiset(b)
    ensures SumKeys(ds, a) == SumKeys(ds, b)
    decreases |a|
  {
    if a == [] {
      assert |b| == |multiset(b)|;
    } else {
      var x := a[0];
      var i := FindIn(b, x);
      RemoveMatch(a, b, i);
      var rest := b[..i] + b[i + 1..];
      SumKeysPermutation(ds, a[1..], rest);
      assert SumKeys(ds, b) == SumKeys(ds, rest) + SumFor(ds, x) by {
        SumKeysAppend(ds, b[..i] + [x], b[i + 1..]);
        SumKeysAppend(ds, b[..i], [x]);
        SumKeysAppend(ds, b[..i], b[i + 1..]);
      }
    }
  }

  /** One more entry adds its quantity to the sum of its own key only. */
  lemma {:induction false} SumKeysStep(init: seq<CatchDetail>, d: CatchDetail, keys: seq<string>)
    requires Distinct(keys)
    ensures SumKeys(init + [d], keys) == SumKeys(init, keys) + (if d.catchNo in keys then OrZero(d.quantity) else 0)
  {
    var ds := init + [d];
    assert ds[..|ds| - 1] == init;
    if keys != [] {
      assert keys == [keys[0]] + keys[1..];
      assert Distinct(keys[1..]) by {
        assert forall k :: multiset(keys)[k] == multiset([keys[0]])[k] + multiset(keys[1..])[k];
      }
      if keys[0] == d.catchNo {
        assert multiset(keys)[keys[0]] == 1 + multiset(keys[1..])[keys[0]];
      }
      SumKeysStep(init, d, keys[1..]);
    }
  }

  lemma {:induction false} SeenKeysTotal(ds: seq<CatchDetail>)
    ensures SumKeys(ds, SeenKeys(ds)) == CountedQuantity(ds)
  {
    if ds != [] {
      var init := ds[..|ds| - 1];
      var d := ds[|ds| - 1];
      assert ds == init + [d];
      var seen := SeenKeys(init);
      SeenKeysTotal(init);
      SeenKeysSpec(init);
      SumKeysStep(init, d, seen);
      if d.catchNo != "" && d.catchNo !in seen {
        SumKeysAppend(ds, seen, [d.catchNo]);
        UnseenSumsZero(init, d.catchNo);
      }
    }
  }

  lemma {:induction false} QuantitySumOfEntries(ds: seq<CatchDetail>, keys: seq<string>)
    ensures QuantitySum(seq(|keys|, j requires 0 <= j < |keys| => CatchDetail(keys[j], Some(SumFor(ds, keys[j]))))) == SumKeys(ds, keys)
  {
    var e := seq(|keys|, j requires 0 <= j < |keys| => CatchDetail(keys[j], Some(SumFor(ds, keys[j]))));
    if keys != [] {
      var rest := keys[1..];
      QuantitySumOfEntries(ds, rest);
      assert e[1..] == seq(|rest|, j requires 0 <= j < |rest| => CatchDetail(rest[j], Some(SumFor(ds, rest[j]))));
    }
  }

  /** Grouping neither loses nor invents quantity: the grouped total is the
      total of every entry with a catch number. */
  lemma GroupedConserves(ds: seq<CatchDetail>)
    ensures QuantitySum(Grouped(ds)) == CountedQuantity(ds)
  {
    var seen := SeenKeys(ds);
    QuantitySumOfEntries(ds, OwnKeys(seen));
    OwnKeysPermutes(seen);
    SumKeysPermutation(ds, OwnKeys(seen), seen);
    SeenKeysTotal(ds);
  }

  // ---------------------------------------------------------------------
  // Reordering the records

  /** The catch numbers of a list, in order. */
  function CatchNos(l: seq<CatchDetail>): (r: seq<string>)
    ensures |r| == |l|
    ensures forall i :: 0 <= i < |l| ==> r[i] == l[i].catchNo
  {
    seq(|l|, i requires 0 <= i < |l| => l[i].catchNo)
  }

  lemma {:induction false} SumForAppend(a: seq<CatchDetail>, b: seq<CatchDetail>, k: string)
    ensures SumFor(a + b, k) == SumFor(a, k) + SumFor(b, k)
    decreases |b|
  {
    if b == [] {
      assert a + b == a;
    } else {
      assert (a + b)[..|a + b| - 1] == a + b[..|b| - 1];
      SumForAppend(a, b[..|b| - 1], k);
    }
  }

  /** The sum for a catch number does not depend on the order of the records. */
  lemma {:induction false} SumForPermutation(a: seq<CatchDetail>, b: seq<CatchDetail>, k: string)
    requires multiset(a) == multiset(b)
    ensures SumFor(a, k) == SumFor(b, k)
    decreases |a|
  {
    if a == [] {
      assert |b| == |multiset(b)|;
    } else {
      var x := a[0];
      var i := FindIn(b, x);
      RemoveMatch(a, b, i);
      var rest := b[..i] + b[i + 1..];
      SumForPermutation(a[1..], rest, k);
      assert SumFor(a, k) == SumFor([x], k) + SumFor(a[1..], k) by {
        SumForAppend([x], a[1..], k);
      }
      assert SumFor(b, k) == SumFor(rest, k) + SumFor([x], k) by {
        SumForAppend(b[..i] + [x], b[i + 1..], k);
        SumForAppend(b[..i], [x], k);
        SumForAppend(b[..i], b[i + 1..], k);
      }
    }
  }

  /** Reordering the records reorders their catch numbers alike. */
  lemma {:induction false} CatchNosPermutation(a: seq<CatchDetail>, b: seq<CatchDetail>)
    requires multiset(a) == multiset(b)
    ensures multiset(CatchNos(a)) == multiset(CatchNos(b))
    decreases |a|
  {
    if a == [] {
      assert |b| == |multiset(b)|;
    } else {
      var x := a[0];
      var i := FindIn(b, x);
      RemoveMatch(a, b, i);
      var rest := b[..i] + b[i + 1..];
      CatchNosPermutation(a[1..], rest);
      CatchNosRemove(a, 0);
      assert a[..0] + a[1..] == a[1..];
      CatchNosRemove(b, i);
    }
  }

  /** Taking out the record at `i` takes out its catch number. */
  lemma CatchNosRemove(b: seq<CatchDetail>, i: nat)
    requires i < |b|
    ensures multiset(CatchNos(b)) == multiset(CatchNos(b[..i] + b[i + 1..])) + multiset{b[i].catchNo}
  {
    assert b == b[..i] + [b[i]] + b[i + 1..];
    CatchNosSplice(b[..i], b[i], b[i + 1..]);
  }

  lemma CatchNosSplice(p: seq<CatchDetail>, x: CatchDetail, q: seq<CatchDetail>)
    ensures multiset(CatchNos(p + [x] + q)) == multiset(CatchNos(p + q)) + multiset{x.catchNo}
  {
    assert CatchNos(p + [x] + q) == CatchNos(p) + [x.catchNo] + CatchNos(q);
    assert CatchNos(p + q) == CatchNos(p) + CatchNos(q);
  }

  lemma CatchNumbersPermutation(a: seq<CatchDetail>, b: seq<CatchDetail>)
    requires multiset(a) == multiset(b)
    ensures CatchNumbers(a) == CatchNumbers(b)
  {
    forall x | x in CatchNumbers(a) ensures x in CatchNumbers(b) {
      var i :| 0 <= i < |a| && a[i].catchNo != "" && a[i].catchNo == x;
      assert a[i] in multiset(b);
      var j :| 0 <= j < |b| && b[j] == a[i];
    }
    forall x | x in CatchNumbers(b) ensures x in CatchNumbers(a) {
      var i :| 0 <= i < |b| && b[i].catchNo != "" && b[i].catchNo == x;
      assert b[i] in multiset(a);
      var j :| 0 <= j < |a| && a[j] == b[i];
    }
  }

  /** The grouped entries have distinct catch numbers, and each carries the
      sum of its records. */
  lemma GroupedEntries(ds: seq<CatchDetail>)
    ensures Distinct(CatchNos(Grouped(ds)))
    ensures forall k :: k in CatchNos(Grouped(ds)) <==> k in CatchNumbers(ds)
    ensures forall j :: 0 <= j < |Grouped(ds)| ==> Grouped(ds)[j].quantity == Some(SumFor(ds, Grouped(ds)[j].catchNo))
  {
    var seen := SeenKeys(ds);
    SeenKeysSpec(ds);
    OwnKeysPermutes(seen);
    assert CatchNos(Grouped(ds)) == OwnKeys(seen);
    forall k ensures k in CatchNos(Grouped(ds)) <==> k in CatchNumbers(ds) {
      assert k in OwnKeys(seen) <==> k in multiset(OwnKeys(seen));
      assert k in seen <==> k in multiset(seen);
    }
  }

  // ---------------------------------------------------------------------
  // Key order

  lemma IndexLtIsStrictWeak()
    ensures StrictWeakOrder(IndexLt)
  {
  }

  lemma OwnKeysParts(insertion: seq<string>, a: seq<string>, b: seq<string>)
    requires a == SortBy(Select(insertion, IsArrayIndex), IndexLt)
    requires b == Select(insertion, Not(IsArrayIndex))
    ensures forall i :: 0 <= i < |a| ==> IsArrayIndex(a[i])
    ensures forall i :: 0 <= i < |b| ==> !IsArrayIndex(b[i])
  {
    var idx := Select(insertion, IsArrayIndex);
    SortByPermutes(idx, IndexLt);
    forall i | 0 <= i < |a| ensures IsArrayIndex(a[i]) {
      assert a[i] in multiset(idx);
    }
    forall i | 0 <= i < |b| ensures !IsArrayIndex(b[i]) {
      assert Not(IsArrayIndex)(b[i]);
    }
  }

  /** `Object.entries` lists array index keys first, in ascending numeric
      order, and the remaining keys in the order they were first set. */
  lemma OwnKeysOrder(insertion: seq<string>)
    ensures var r := OwnKeys(insertion);
      && Sorted(r, FirstLt(IsArrayIndex))
      && Sorted(Select(r, IsArrayIndex), IndexLt)
      && Select(r, Not(IsArrayIndex)) == Select(insertion, Not(IsArrayIndex))
  {
    var idx := Select(insertion, IsArrayIndex);
    var a := SortBy(idx, IndexLt);
    var b := Select(insertion, Not(IsArrayIndex));
    OwnKeysParts(insertion, a, b);
    IndexKeysFirst(a, b);
    SelectAppend(a, b, IsArrayIndex);
    SelectAll(a, IsArrayIndex);
    SelectNone(b, IsArrayIndex);
    NotSelected(b, a);
    SelectAppend(a, b, Not(IsArrayIndex));
    IndexLtIsStrictWeak();
    SortBySorted(idx, IndexLt);
  }

  lemma IndexKeysFirst(a: seq<string>, b: seq<string>)
    requires forall i :: 0 <= i < |a| ==> IsArrayIndex(a[i])
    requires forall i :: 0 <= i < |b| ==> !IsArrayIndex(b[i])
    ensures Sorted(a + b, FirstLt(IsArrayIndex))
  {
    var r := a + b;
    forall i, j | 0 <= i < j < |r| ensures !FirstLt(IsArrayIndex)(r[j], r[i]) {
      if j < |a| {
        assert r[i] == a[i];
      } else {
        assert r[j] == b[j - |a|];
      }
    }
  }

  lemma NotSelected(b: seq<string>, a: seq<string>)
    requires forall i :: 0 <= i < |a| ==> IsArrayIndex(a[i])
    requires forall i :: 0 <= i < |b| ==> !IsArrayIndex(b[i])
    ensures Select(a, Not(IsArrayIndex)) == [] && Select(b, Not(IsArrayIndex)) == b
  {
    forall i | 0 <= i < |a| ensures !Not(IsArrayIndex)(a[i]) {}
    forall i | 0 <= i < |b| ensures Not(IsArrayIndex)(b[i]) {}
    SelectNone(a, Not(IsArrayIndex));
    SelectAll(b, Not(IsArrayIndex));
  }

  // ---------------------------------------------------------------------
  // The catch tables' comparators

  /** The column a catch table is sorted by. */
  datatype Column = ByCatchNo | ByQuantity

  datatype Direction = Asc | Desc

  /** `(a.catchNo || '').localeCompare(b.catchNo || '')` and
      `(a.quantity || 0) - (b.quantity || 0)`, or their reverses, read as
      "a sorts before b". */
  function CatchOrder(col: Column, dir: Direction): (CatchDetail, CatchDetail) -> bool
  {
    match col
    case ByCatchNo =>
      if dir == Asc then (a: CatchDetail, b: CatchDetail) => LexLess(a.catchNo, b.catchNo)
      else (a: CatchDetail, b: CatchDetail) => LexLess(b.catchNo, a.catchNo)
    case ByQuantity =>
      if dir == Asc then (a: CatchDetail, b: CatchDetail) => OrZero(a.quantity) < OrZero(b.quantity)
      else (a: CatchDetail, b: CatchDetail) => OrZero(b.quantity) < OrZero(a.quantity)
  }

  /** A descending comparator is the ascending one with its arguments
      swapped; ascending compares the catch numbers as strings, or the
      quantities with a missing one read as 0. */
  lemma CatchOrderDirections(col: Column)
    ensures forall a, b :: CatchOrder(col, Desc)(a, b) == CatchOrder(col, Asc)(b, a)
    ensures col == ByCatchNo ==> forall a, b :: CatchOrder(col, Asc)(a, b) == LexLess(a.catchNo, b.catchNo)
    ensures col == ByQuantity ==> forall a, b :: CatchOrder(col, Asc)(a, b) == (OrZero(a.quantity) < OrZero(b.quantity))
  {
  }

  /** Every comparator the catch tables use is consistent, so the sorts
      they drive are the stable sort. */
  lemma CatchOrderIsStrictWeak(col: Column, dir: Direction)
    ensures StrictWeakOrder(CatchOrder(col, dir))
  {
    if col == ByCatchNo {
      forall x: CatchDetail ensures !LexLess(x.catchNo, x.catchNo) {
        LexIrreflexive(x.catchNo);
      }
      forall x: CatchDetail, y: CatchDetail, z: CatchDetail
        ensures LexLess(x.catchNo, y.catchNo) && LexLess(y.catchNo, z.catchNo) ==> LexLess(x.catchNo, z.catchNo)
        ensures !LexLess(x.catchNo, y.catchNo) && !LexLess(y.catchNo, z.catchNo) ==> !LexLess(x.catchNo, z.catchNo)
      {
        LexOrderFacts(x.catchNo, y.catchNo, z.catchNo);
      }
      forall x: CatchDetail, y: CatchDetail, z: CatchDetail
        ensures LexLess(y.catchNo, x.catchNo) && LexLess(z.catchNo, y.catchNo) ==> LexLess(z.catchNo, x.catchNo)
        ensures !LexLess(y.catchNo, x.catchNo) && !LexLess(z.catchNo, y.catchNo) ==> !LexLess(z.catchNo, x.catchNo)
      {
        LexOrderFacts(z.catchNo, y.catchNo, x.catchNo);
      }
    }
  }

  lemma LexOrderFacts(a: string, b: string, c: string)
    ensures LexLess(a, b) && LexLess(b, c) ==> LexLess(a, c)
    ensures !LexLess(a, b) && !LexLess(b, c) ==> !LexLess(a, c)
  {
    if LexLess(a, b) && LexLess(b, c) {
      LexTransitive(a, b, c);
    }
    if !LexLess(a, b) && !LexLess(b, c) {
      LexTotal(a, b);
      LexTotal(b, c);
      LexIrreflexive(a);
      if LexLess(a, c) {
        if LexLess(b, a) && LexLess(c, b) {
          LexTransitive(c, b, a);
          LexTransitive(a, c, a);
        }
      }
    }
  }
}

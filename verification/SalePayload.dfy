/** The canonical form of a sale request, whose hash tells two requests under one key apart. */
module SalePayload {
  import opened Wrappers
  import opened Tables

  // Product ids and method names are strings; a Key stands for a string in the order of JavaScript's <.
  type Key = nat

  datatype RawItem = RawItem(product: Key, quantity: int, unitPrice: Option<Money>, price: Option<Money>, discount: Option<Money>)
  datatype RawPayment = RawPayment(means: Key, amount: Money, reference: Option<Key>, notes: Option<Key>)
  datatype Request = Request(branch: Option<Key>, customer: Option<Key>, discount: Option<Money>, items: seq<RawItem>,
                             payments: Option<seq<RawPayment>>, paidAmount: Option<Money>, paymentMethod: Option<Key>, notes: Option<Key>)

  datatype CanonicalItem = CanonicalItem(product: Key, quantity: int, price: Option<Money>, discount: Money)
  datatype CanonicalPayment = CanonicalPayment(means: Key, amount: Money)
  datatype Payload = Payload(branch: Option<Key>, customer: Option<Key>, discount: Money, items: seq<CanonicalItem>,
                             payments: Option<seq<CanonicalPayment>>, paidAmount: Option<Money>, paymentMethod: Option<Key>)

  function OrZero(m: Option<Money>): Money { if m.Some? then m.value else 0 }

  function ItemOf(i: RawItem): CanonicalItem {
    CanonicalItem(i.product, i.quantity, if i.unitPrice.Some? then i.unitPrice else i.price, OrZero(i.discount))
  }
  function PaymentOf(p: RawPayment): CanonicalPayment { CanonicalPayment(p.means, p.amount) }

  // ------------------------------------------------------------------
  // Stable sorting by a key.

  function Insert<T>(x: T, xs: seq<T>, key: T -> Key): seq<T> {
    if xs == [] || key(x) <= key(xs[0]) then [x] + xs else [xs[0]] + Insert(x, xs[1..], key)
  }

  /** Array.prototype.sort by a key: elements with equal keys keep their order. */
  function SortBy<T>(xs: seq<T>, key: T -> Key): seq<T> {
    if xs == [] then [] else Insert(xs[0], SortBy(xs[1..], key), key)
  }

  function Map<T, U>(xs: seq<T>, f: T -> U): seq<U> {
    if xs == [] then [] else [f(xs[0])] + Map(xs[1..], f)
  }

  /** The elements of one key, in order. */
  function Having<T>(xs: seq<T>, key: T -> Key, k: Key): seq<T> {
    if xs == [] then [] else (if key(xs[0]) == k then [xs[0]] else []) + Having(xs[1..], key, k)
  }

  ghost predicate SortedBy<T>(xs: seq<T>, key: T -> Key) {
    forall i, j | 0 <= i < j < |xs| :: key(xs[i]) <= key(xs[j])
  }

  lemma {:induction false} InsertAdds<T>(x: T, xs: seq<T>, key: T -> Key, y: T)
    requires y in Insert(x, xs, key)
    ensures y == x || y in xs
  {
    if xs != [] && key(x) > key(xs[0]) && y != xs[0] {
      InsertAdds(x, xs[1..], key, y);
    }
  }

  lemma {:induction false} InsertKeepsSorted<T>(x: T, xs: seq<T>, key: T -> Key)
    requires SortedBy(xs, key)
    ensures SortedBy(Insert(x, xs, key), key)
  {
    if xs != [] && key(x) > key(xs[0]) {
      var rest := Insert(x, xs[1..], key);
      InsertKeepsSorted(x, xs[1..], key);
      forall i | 0 <= i < |rest| ensures key(xs[0]) <= key(rest[i]) {
        InsertAdds(x, xs[1..], key, rest[i]);
      }
    }
  }

  lemma {:induction false} HavingCons<T>(x: T, xs: seq<T>, key: T -> Key, k: Key)
    ensures Having([x] + xs, key, k) == (if key(x) == k then [x] else []) + Having(xs, key, k)
  {
    assert ([x] + xs)[1..] == xs;
  }

  lemma {:induction false} InsertKeepsHaving<T>(x: T, xs: seq<T>, key: T -> Key, k: Key)
    ensures Having(Insert(x, xs, key), key, k) == (if key(x) == k then [x] else []) + Having(xs, key, k)
  {
    if xs != [] && key(x) > key(xs[0]) {
      HavingCons(xs[0], Insert(x, xs[1..], key), key, k);
      InsertKeepsHaving(x, xs[1..], key, k);
    } else {
      HavingCons(x, xs, key, k);
    }
  }

  /** Key by key, the same elements in the same order. */
  ghost predicate AgreeByKey<T>(a: seq<T>, b: seq<T>, key: T -> Key) {
    forall k :: Having(a, key, k) == Having(b, key, k)
  }

  lemma {:induction false} SortKeepsHaving<T>(xs: seq<T>, key: T -> Key, k: Key)
    ensures Having(SortBy(xs, key), key, k) == Having(xs, key, k)
  {
    if xs != [] {
      SortKeepsHaving(xs[1..], key, k);
      InsertKeepsHaving(xs[0], SortBy(xs[1..], key), key, k);
    }
  }

  /** Sorting sorts, and keeps the order of elements with equal keys. */
  lemma {:induction false} SortIsStable<T>(xs: seq<T>, key: T -> Key)
    ensures SortedBy(SortBy(xs, key), key) && AgreeByKey(SortBy(xs, key), xs, key)
  {
    forall k { SortKeepsHaving(xs, key, k); }
    if xs != [] {
      SortIsStable(xs[1..], key);
      InsertKeepsSorted(xs[0], SortBy(xs[1..], key), key);
    }
  }

  lemma {:induction false} HavingNone<T>(xs: seq<T>, key: T -> Key, k: Key)
    requires forall i | 0 <= i < |xs| :: key(xs[i]) != k
    ensures Having(xs, key, k) == []
  {
    if xs != [] {
      HavingNone(xs[1..], key, k);
    }
  }

  lemma {:induction false} SortedTail<T>(xs: seq<T>, key: T -> Key, k: Key)
    requires SortedBy(xs, key) && xs != [] && key(xs[0]) > k
    ensures Having(xs, key, k) == []
  {
    HavingNone(xs, key, k);
  }

  lemma {:induction false} SameHeads<T>(a: seq<T>, b: seq<T>, key: T -> Key)
    requires SortedBy(a, key) && SortedBy(b, key) && AgreeByKey(a, b, key) && a != [] && b != []
    ensures a[0] == b[0]
  {
    var k := if key(a[0]) <= key(b[0]) then key(a[0]) else key(b[0]);
    if key(a[0]) > k { SortedTail(a, key, k); }
    if key(b[0]) > k { SortedTail(b, key, k); }
    assert Having(a, key, k) == Having(b, key, k);
    if key(a[0]) == k {
      assert Having(a, key, k)[0] == a[0];
    }
    if key(b[0]) == k {
      assert Having(b, key, k)[0] == b[0];
    }
  }

  lemma {:induction false} SameTails<T>(a: seq<T>, b: seq<T>, key: T -> Key)
    requires a != [] && b != [] && a[0] == b[0] && AgreeByKey(a, b, key)
    ensures AgreeByKey(a[1..], b[1..], key)
  {
    forall k ensures Having(a[1..], key, k) == Having(b[1..], key, k) {
      assert Having(a, key, k) == Having(b, key, k);
      var head := if key(a[0]) == k then [a[0]] else [];
      assert Having(a[1..], key, k) == Having(a, key, k)[|head|..];
      assert Having(b[1..], key, k) == Having(b, key, k)[|head|..];
    }
  }

  /** A sorted sequence is determined by its elements of each key. */
  lemma {:induction false} SortedIsDetermined<T>(a: seq<T>, b: seq<T>, key: T -> Key)
    requires SortedBy(a, key) && SortedBy(b, key) && AgreeByKey(a, b, key)
    ensures a == b
    decreases |a| + |b|
  {
    if a != [] {
      assert Having(a, key, key(a[0])) == Having(b, key, key(a[0]));
      assert b != [];
    }
    if b != [] {
      assert Having(a, key, key(b[0])) == Having(b, key, key(b[0]));
      assert a != [];
    }
    if a != [] {
      SameHeads(a, b, key);
      SameTails(a, b, key);
      SortedIsDetermined(a[1..], b[1..], key);
    }
  }

  /** Two lists sort alike exactly when, key by key, they list the same elements in the same order. */
  lemma {:induction false} SameSortIff<T>(a: seq<T>, b: seq<T>, key: T -> Key)
    ensures SortBy(a, key) == SortBy(b, key) <==> AgreeByKey(a, b, key)
  {
    SortIsStable(a, key);
    SortIsStable(b, key);
    if AgreeByKey(a, b, key) {
      forall k ensures Having(SortBy(a, key), key, k) == Having(SortBy(b, key), key, k) {
        assert Having(a, key, k) == Having(b, key, k);
        SortKeepsHaving(a, key, k);
        SortKeepsHaving(b, key, k);
      }
      SortedIsDetermined(SortBy(a, key), SortBy(b, key), key);
    }
    if SortBy(a, key) == SortBy(b, key) {
      forall k ensures Having(a, key, k) == Having(b, key, k) {
        SortKeepsHaving(a, key, k);
        SortKeepsHaving(b, key, k);
      }
    }
  }

  // ------------------------------------------------------------------
  // Sorting and then dropping fields is dropping them first.

  lemma {:induction false} MapInsert<T, U>(x: T, xs: seq<T>, key: T -> Key, f: T -> U, key2: U -> Key)
    requires forall y :: key2(f(y)) == key(y)
    ensures Map(Insert(x, xs, key), f) == Insert(f(x), Map(xs, f), key2)
  {
    if xs == [] {
    } else if key(x) <= key(xs[0]) {
      assert ([x] + xs)[1..] == xs;
    } else {
      MapInsert(x, xs[1..], key, f, key2);
      assert ([xs[0]] + Insert(x, xs[1..], key))[1..] == Insert(x, xs[1..], key);
      assert Map(xs, f)[1..] == Map(xs[1..], f);
    }
  }

  lemma {:induction false} MapSort<T, U>(xs: seq<T>, key: T -> Key, f: T -> U, key2: U -> Key)
    requires forall y :: key2(f(y)) == key(y)
    ensures Map(SortBy(xs, key), f) == SortBy(Map(xs, f), key2)
  {
    if xs != [] {
      MapSort(xs[1..], key, f, key2);
      MapInsert(xs[0], SortBy(xs[1..], key), key, f, key2);
      assert Map(xs, f)[1..] == Map(xs[1..], f);
    }
  }

  // ------------------------------------------------------------------
  // The payload.

  const ByProduct: RawItem -> Key := (i: RawItem) => i.product
  const ByMeans: RawPayment -> Key := (p: RawPayment) => p.means
  const ByItemProduct: CanonicalItem -> Key := (i: CanonicalItem) => i.product
  const ByPaymentMeans: CanonicalPayment -> Key := (p: CanonicalPayment) => p.means

  function Canonical(r: Request): Payload {
    Payload(r.branch, r.customer, OrZero(r.discount), Map(SortBy(r.items, ByProduct), ItemOf),
            if r.payments.Some? then Some(Map(SortBy(r.payments.value, ByMeans), PaymentOf)) else None,
            r.paidAmount, r.paymentMethod)
  }

  // The lines and payments as they count, in request order.
  function Items(r: Request): seq<CanonicalItem> { Map(r.items, ItemOf) }
  function Payments(ps: seq<RawPayment>): seq<CanonicalPayment> { Map(ps, PaymentOf) }

  ghost predicate SameItems(a: Request, b: Request) { AgreeByKey(Items(a), Items(b), ByItemProduct) }

  ghost predicate SamePayments(a: Request, b: Request) {
    && (a.payments.Some? <==> b.payments.Some?)
    && (a.payments.Some? ==> AgreeByKey(Payments(a.payments.value), Payments(b.payments.value), ByPaymentMeans))
  }

  lemma {:induction false} ItemsAgreeIff(a: Request, b: Request)
    ensures Canonical(a).items == Canonical(b).items <==> SameItems(a, b)
  {
    MapSort(a.items, ByProduct, ItemOf, ByItemProduct);
    MapSort(b.items, ByProduct, ItemOf, ByItemProduct);
    SameSortIff(Map(a.items, ItemOf), Map(b.items, ItemOf), ByItemProduct);
  }

  lemma {:induction false} PaymentsAgreeIff(a: Request, b: Request)
    ensures Canonical(a).payments == Canonical(b).payments <==> SamePayments(a, b)
  {
    if a.payments.Some? && b.payments.Some? {
      var pa, pb := a.payments.value, b.payments.value;
      MapSort(pa, ByMeans, PaymentOf, ByPaymentMeans);
      MapSort(pb, ByMeans, PaymentOf, ByPaymentMeans);
      SameSortIff(Map(pa, PaymentOf), Map(pb, PaymentOf), ByPaymentMeans);
    }
  }

  /**
   * Two requests have the same payload exactly when their own fields agree (notes and payment
   * references aside) and, product by product and method by method, their lines and payments agree
   * in order.
   */
  lemma {:induction false} SamePayloadIff(a: Request, b: Request)
    ensures Canonical(a) == Canonical(b) <==>
              && a.branch == b.branch && a.customer == b.customer && OrZero(a.discount) == OrZero(b.discount)
              && a.paidAmount == b.paidAmount && a.paymentMethod == b.paymentMethod
              && SameItems(a, b) && SamePayments(a, b)
  {
    ItemsAgreeIff(a, b);
    PaymentsAgreeIff(a, b);
  }

  // ------------------------------------------------------------------
  // Order.

  ghost predicate DistinctKeys<T>(xs: seq<T>, key: T -> Key) {
    forall i, j | 0 <= i < j < |xs| :: key(xs[i]) != key(xs[j])
  }

  lemma {:induction false} HavingDistinct<T>(xs: seq<T>, key: T -> Key, i: nat)
    requires DistinctKeys(xs, key) && i < |xs|
    ensures Having(xs, key, key(xs[i])) == [xs[i]]
  {
    if i == 0 {
      HavingNone(xs[1..], key, key(xs[0]));
    } else {
      HavingDistinct(xs[1..], key, i - 1);
    }
  }

  lemma {:induction false} DistinctSortIgnoresOrder<T>(a: seq<T>, b: seq<T>, key: T -> Key)
    requires DistinctKeys(a, key) && DistinctKeys(b, key) && forall x :: x in a <==> x in b
    ensures SortBy(a, key) == SortBy(b, key)
  {
    forall k ensures Having(a, key, k) == Having(b, key, k) {
      if i :| 0 <= i < |a| && key(a[i]) == k {
        assert a[i] in b;
        var j :| 0 <= j < |b| && b[j] == a[i];
        HavingDistinct(a, key, i);
        HavingDistinct(b, key, j);
      } else {
        HavingNone(a, key, k);
        forall j | 0 <= j < |b| ensures key(b[j]) != k {
          assert b[j] in a;
        }
        HavingNone(b, key, k);
      }
    }
    SameSortIff(a, b, key);
  }

  /** With distinct products and distinct payment methods, the order of lines and payments does not matter. */
  lemma {:induction false} OrderDoesNotMatter(a: Request, items: seq<RawItem>, payments: seq<RawPayment>)
    requires a.payments.Some?
    requires DistinctKeys(a.items, ByProduct) && DistinctKeys(items, ByProduct) && forall i :: i in items <==> i in a.items
    requires DistinctKeys(a.payments.value, ByMeans) && DistinctKeys(payments, ByMeans) && forall p :: p in payments <==> p in a.payments.value
    ensures Canonical(a.(items := items, payments := Some(payments))) == Canonical(a)
  {
    DistinctSortIgnoresOrder(items, a.items, ByProduct);
    DistinctSortIgnoresOrder(payments, a.payments.value, ByMeans);
  }

  /** With a repeated product it does: swapping two different lines of it changes the payload. */
  lemma {:induction false} RepeatedProductOrderMatters(a: Request, x: RawItem, y: RawItem)
    requires x.product == y.product && ItemOf(x) != ItemOf(y)
    ensures Canonical(a.(items := [x, y])) != Canonical(a.(items := [y, x]))
  {
    var xy, yx := a.(items := [x, y]), a.(items := [y, x]);
    MapBoth(x, y);
    MapBoth(y, x);
    HavingBoth(ItemOf(x), ItemOf(y));
    HavingBoth(ItemOf(y), ItemOf(x));
    assert Having(Items(xy), ByItemProduct, x.product)[0] != Having(Items(yx), ByItemProduct, x.product)[0];
    SamePayloadIff(xy, yx);
  }

  lemma {:induction false} MapBoth(x: RawItem, y: RawItem)
    ensures Map([x, y], ItemOf) == [ItemOf(x), ItemOf(y)]
  {
    assert [x, y][1..] == [y] && [y][1..] == [];
    assert Map([y], ItemOf) == [ItemOf(y)];
  }

  lemma {:induction false} HavingBoth(x: CanonicalItem, y: CanonicalItem)
    requires x.product == y.product
    ensures Having([x, y], ByItemProduct, x.product) == [x, y]
  {
    assert [x, y][1..] == [y] && [y][1..] == [];
    assert Having([y], ByItemProduct, x.product) == [y];
  }
}

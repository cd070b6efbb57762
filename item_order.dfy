/** The final step of `get_ownership_items`: `sort_by` on the `nft_id`
    strings, a stable sort under the byte-wise order of `String`. */
module ItemOrder {
  import opened Text
  import opened Models

  predicate SortedByNftId(s: seq<OwnershipItem>) {
    forall i, j :: 0 <= i < j < |s| ==> LexLessEq(s[i].nftId, s[j].nftId)
  }

  /** Every item of `s` has an id no smaller than `key`. */
  predicate AllAtLeast(key: string, s: seq<OwnershipItem>) {
    forall k :: 0 <= k < |s| ==> LexLessEq(key, s[k].nftId)
  }

  /** Two items that share an id are the same item. */
  predicate KeyFaithful(s: seq<OwnershipItem>) {
    forall x, y :: x in s && y in s && x.nftId == y.nftId ==> x == y
  }

  /** Places `x` after every item whose id is not greater than its own, so
      items with equal ids keep their order. */
  function Insert(x: OwnershipItem, s: seq<OwnershipItem>): (r: seq<OwnershipItem>)
    ensures multiset(r) == multiset(s) + multiset{x}
    ensures |r| == |s| + 1
  {
    if |s| == 0 then [x]
    else if LexLess(x.nftId, s[0].nftId) then [x] + s
    else
      assert s == [s[0]] + s[1..];
      [s[0]] + Insert(x, s[1..])
  }

  lemma SortedCons(h: OwnershipItem, t: seq<OwnershipItem>)
    ensures SortedByNftId([h] + t) <==> AllAtLeast(h.nftId, t) && SortedByNftId(t)
  {
    var s := [h] + t;
    if AllAtLeast(h.nftId, t) && SortedByNftId(t) {
      forall i, j | 0 <= i < j < |s|
        ensures LexLessEq(s[i].nftId, s[j].nftId)
      {
        if i > 0 {
          assert s[i] == t[i - 1] && s[j] == t[j - 1];
        } else {
          assert s[j] == t[j - 1];
        }
      }
    }
    if SortedByNftId(s) {
      forall k | 0 <= k < |t|
        ensures LexLessEq(h.nftId, t[k].nftId)
      {
        assert s[0] == h && s[k + 1] == t[k];
      }
      forall i, j | 0 <= i < j < |t|
        ensures LexLessEq(t[i].nftId, t[j].nftId)
      {
        assert s[i + 1] == t[i] && s[j + 1] == t[j];
      }
    }
  }

  lemma {:induction false} InsertKeepsLowerBound(key: string, x: OwnershipItem, s: seq<OwnershipItem>)
    requires AllAtLeast(key, s) && LexLessEq(key, x.nftId)
    ensures AllAtLeast(key, Insert(x, s))
    decreases |s|
  {
    if |s| > 0 && !LexLess(x.nftId, s[0].nftId) {
      InsertKeepsLowerBound(key, x, s[1..]);
      var r := Insert(x, s);
      assert r == [s[0]] + Insert(x, s[1..]);
      forall k | 0 <= k < |r|
        ensures LexLessEq(key, r[k].nftId)
      {
        if k > 0 {
          assert r[k] == Insert(x, s[1..])[k - 1];
        }
      }
    }
  }

  lemma {:induction false} InsertSorted(x: OwnershipItem, s: seq<OwnershipItem>)
    requires SortedByNftId(s)
    ensures SortedByNftId(Insert(x, s))
    decreases |s|
  {
    if |s| == 0 {
    } else {
      SortedCons(s[0], s[1..]);
      assert s == [s[0]] + s[1..];
      if LexLess(x.nftId, s[0].nftId) {
        forall k | 0 <= k < |s|
          ensures LexLessEq(x.nftId, s[k].nftId)
        {
          if k > 0 {
            assert LexLessEq(s[0].nftId, s[k].nftId);
            LexLessEqTransitive(x.nftId, s[0].nftId, s[k].nftId);
          }
        }
        SortedCons(x, s);
      } else {
        LexTotal(x.nftId, s[0].nftId);
        InsertSorted(x, s[1..]);
        InsertKeepsLowerBound(s[0].nftId, x, s[1..]);
        SortedCons(s[0], Insert(x, s[1..]));
      }
    }
  }

  /** `ownership_items.sort_by(|a, b| a.nft_id.cmp(&b.nft_id))`: the items
      rearranged into ascending order of their id strings. */
  function SortByNftId(s: seq<OwnershipItem>): (r: seq<OwnershipItem>)
    ensures multiset(r) == multiset(s)
    ensures SortedByNftId(r)
  {
    if |s| == 0 then []
    else
      assert s == s[..|s| - 1] + [s[|s| - 1]];
      InsertSorted(s[|s| - 1], SortByNftId(s[..|s| - 1]));
      Insert(s[|s| - 1], SortByNftId(s[..|s| - 1]))
  }

  /** The first items of two sorted arrangements of the same items agree. */
  lemma SortedHeadsAgree(a: seq<OwnershipItem>, b: seq<OwnershipItem>)
    requires SortedByNftId(a) && SortedByNftId(b)
    requires multiset(a) == multiset(b)
    requires KeyFaithful(a)
    requires |a| > 0
    ensures |b| > 0 && a[0] == b[0]
  {
    assert a[0] in multiset(b);
    var j :| 0 <= j < |b| && b[j] == a[0];
    assert b[0] in multiset(a);
    var i :| 0 <= i < |a| && a[i] == b[0];
    assert LexLessEq(a[0].nftId, b[0].nftId) by {
      if i > 0 { assert LexLessEq(a[0].nftId, a[i].nftId); }
    }
    assert LexLessEq(b[0].nftId, a[0].nftId) by {
      if j > 0 { assert LexLessEq(b[0].nftId, b[j].nftId); }
    }
    LexLessEqAntisymmetric(a[0].nftId, b[0].nftId);
    assert a[0] in a && b[0] in a;
  }

  lemma DropSharedHead(a: seq<OwnershipItem>, b: seq<OwnershipItem>)
    requires |a| > 0 && |b| > 0 && a[0] == b[0]
    requires multiset(a) == multiset(b)
    requires KeyFaithful(a)
    ensures multiset(a[1..]) == multiset(b[1..])
    ensures KeyFaithful(a[1..])
  {
    assert a == [a[0]] + a[1..] && b == [b[0]] + b[1..];
    assert multiset(a) == multiset{a[0]} + multiset(a[1..]);
    assert multiset(b) == multiset{b[0]} + multiset(b[1..]);
    assert multiset(a[1..]) == multiset(a) - multiset{a[0]};
    assert multiset(b[1..]) == multiset(b) - multiset{b[0]};
    forall x, y | x in a[1..] && y in a[1..] && x.nftId == y.nftId
      ensures x == y
    {
      assert x in a && y in a;
    }
  }

  /** A sorted arrangement of items whose ids determine them is unique: any
      two sorted sequences with the same items are equal. */
  lemma {:induction false} SortedUnique(a: seq<OwnershipItem>, b: seq<OwnershipItem>)
    requires SortedByNftId(a) && SortedByNftId(b)
    requires multiset(a) == multiset(b)
    requires KeyFaithful(a)
    ensures a == b
    decreases |a|
  {
    assert |a| == |multiset(a)| == |multiset(b)| == |b|;
    if |a| > 0 {
      SortedHeadsAgree(a, b);
      DropSharedHead(a, b);
      SortedCons(a[0], a[1..]);
      SortedCons(b[0], b[1..]);
      assert a == [a[0]] + a[1..] && b == [b[0]] + b[1..];
      SortedUnique(a[1..], b[1..]);
    }
  }

  /** Sorting is determined by the items alone, not by their order, once
      every id names a single item. */
  lemma SortIgnoresInputOrder(a: seq<OwnershipItem>, b: seq<OwnershipItem>)
    requires multiset(a) == multiset(b)
    requires KeyFaithful(a)
    ensures SortByNftId(a) == SortByNftId(b)
  {
    var sa, sb := SortByNftId(a), SortByNftId(b);
    forall x, y | x in sa && y in sa && x.nftId == y.nftId
      ensures x == y
    {
      assert x in multiset(sa) && y in multiset(sa);
      assert x in a && y in a;
    }
    SortedUnique(sa, sb);
  }

  /** Ids compare as text: the item "10002" is placed before the item "9999". */
  lemma TextOrderPlacesLongerIdFirst(small: OwnershipItem, large: OwnershipItem)
    requires small.nftId == DecimalString(9999) && large.nftId == DecimalString(10002)
    ensures SortByNftId([small, large]) == [large, small]
  {
    TextOrderIsNotNumericOrder();
    assert [small, large][..1] == [small];
    assert SortByNftId([small]) == [small] by {
      assert [small][..0] == [];
    }
  }
}

/**
 * The catalog page's ordering: the comparator chosen by `sortBy` and the
 * stable in-place sort that `Array.prototype.sort` performs with it.
 */
module CatalogSort {
  import opened JsText
  import opened Catalog

  /** The cases of the comparator's `switch (sortBy)`. */
  datatype SortMode = PriceLow | PriceHigh | Rating | ByName

  /** `'name'` and every unknown value fall through to the name order. */
  function ModeOf(sortBy: string): (m: SortMode)
    ensures m == ByName <==> sortBy != "price-low" && sortBy != "price-high" && sortBy != "rating"
  {
    if sortBy == "price-low" then PriceLow
    else if sortBy == "price-high" then PriceHigh
    else if sortBy == "rating" then Rating
    else ByName
  }

  /** The comparator handed to `sort`: negative puts `a` first, positive puts
      `b` first, zero keeps their relative order. */
  function Compare(sortBy: string, a: Product, b: Product): real {
    match ModeOf(sortBy)
    case PriceLow => a.price - b.price
    case PriceHigh => b.price - a.price
    case Rating => b.rating - a.rating
    case ByName => LocaleCompare(a.name, b.name) as real
  }

  /** Swapping the arguments flips the sign. */
  lemma CompareFlip(sortBy: string, a: Product, b: Product)
    ensures Compare(sortBy, b, a) == -Compare(sortBy, a, b)
  {
    LocaleCompareFlip(a.name, b.name);
  }

  /** "Not after" is transitive. */
  lemma CompareTransitive(sortBy: string, a: Product, b: Product, c: Product)
    requires Compare(sortBy, a, b) <= 0.0 && Compare(sortBy, b, c) <= 0.0
    ensures Compare(sortBy, a, c) <= 0.0
  {
    if ModeOf(sortBy) == ByName {
      LocaleCompareTransitive(a.name, b.name, c.name);
    }
  }

  /** Having the same sort key is transitive, and an element after one of a
      key is after every element of that key. */
  lemma CompareEquivalence(sortBy: string, a: Product, b: Product, c: Product)
    requires Compare(sortBy, b, c) == 0.0
    ensures Compare(sortBy, a, b) == 0.0 <==> Compare(sortBy, a, c) == 0.0
    ensures Compare(sortBy, a, b) > 0.0 <==> Compare(sortBy, a, c) > 0.0
  {
    if ModeOf(sortBy) == ByName {
      LocaleCompareZero(b.name, c.name);
    }
  }

  /** No element is placed after another that it should precede. */
  ghost predicate Sorted(sortBy: string, s: seq<Product>) {
    forall i, j :: 0 <= i < j < |s| ==> Compare(sortBy, s[i], s[j]) <= 0.0
  }

  /** What sortedness means for each mode of the selector. */
  lemma SortedMeaning(sortBy: string, s: seq<Product>)
    requires Sorted(sortBy, s)
    ensures sortBy == "price-low" ==> forall i, j :: 0 <= i < j < |s| ==> s[i].price <= s[j].price
    ensures sortBy == "price-high" ==> forall i, j :: 0 <= i < j < |s| ==> s[i].price >= s[j].price
    ensures sortBy == "rating" ==> forall i, j :: 0 <= i < j < |s| ==> s[i].rating >= s[j].rating
    ensures !(sortBy == "price-low" || sortBy == "price-high" || sortBy == "rating") ==>
      forall i, j :: 0 <= i < j < |s| ==> LocaleCompare(s[i].name, s[j].name) <= 0
  {
  }

  // ---------------------------------------------------------------------------
  // Stable insertion: the specification of the sort

  /** Inserts `x` after the last element that does not compare after it. */
  function Insert(sortBy: string, x: Product, t: seq<Product>): (r: seq<Product>)
    ensures |r| == |t| + 1
    decreases |t|
  {
    if t == [] then [x]
    else if Compare(sortBy, t[|t| - 1], x) > 0.0 then
      Insert(sortBy, x, t[..|t| - 1]) + [t[|t| - 1]]
    else t + [x]
  }

  /** Stable sort: each element in turn is inserted into the sorted prefix. */
  function SortSpec(sortBy: string, s: seq<Product>): (r: seq<Product>)
    ensures |r| == |s|
    decreases |s|
  {
    if s == [] then []
    else
      Insert(sortBy, s[|s| - 1], SortSpec(sortBy, s[..|s| - 1]))
  }

  /** Insertion adds exactly one element. */
  lemma {:induction false} InsertPermutation(sortBy: string, x: Product, t: seq<Product>)
    ensures multiset(Insert(sortBy, x, t)) == multiset(t) + multiset{x}
    decreases |t|
  {
    if t != [] && Compare(sortBy, t[|t| - 1], x) > 0.0 {
      InsertPermutation(sortBy, x, t[..|t| - 1]);
      assert t == t[..|t| - 1] + [t[|t| - 1]];
    }
  }

  /** The sort is a permutation of its input. */
  lemma {:induction false} SortPermutation(sortBy: string, s: seq<Product>)
    ensures multiset(SortSpec(sortBy, s)) == multiset(s)
    decreases |s|
  {
    if s != [] {
      SortPermutation(sortBy, s[..|s| - 1]);
      InsertPermutation(sortBy, s[|s| - 1], SortSpec(sortBy, s[..|s| - 1]));
      assert s == s[..|s| - 1] + [s[|s| - 1]];
    }
  }

  /** The elements of `s` with the same sort key as `x`, in their order in `s`. */
  function SameKey(sortBy: string, s: seq<Product>, x: Product): seq<Product>
    decreases |s|
  {
    if s == [] then []
    else SameKey(sortBy, s[..|s| - 1], x)
         + (if Compare(sortBy, s[|s| - 1], x) == 0.0 then [s[|s| - 1]] else [])
  }

  /** The position where insertion stops: everything from `j` on compares
      after `x`, the element before `j` does not. */
  lemma {:induction false} InsertAt(sortBy: string, x: Product, t: seq<Product>, j: nat)
    requires j <= |t|
    requires forall k :: j <= k < |t| ==> Compare(sortBy, t[k], x) > 0.0
    requires j > 0 ==> Compare(sortBy, t[j - 1], x) <= 0.0
    ensures Insert(sortBy, x, t) == t[..j] + [x] + t[j..]
    decreases |t|
  {
    if |t| == j {
      assert t[..j] == t && t[j..] == [];
      if t != [] {
        assert Compare(sortBy, t[|t| - 1], x) <= 0.0;
      }
    } else {
      var u, last := t[..|t| - 1], t[|t| - 1];
      assert Compare(sortBy, last, x) > 0.0;
      assert Insert(sortBy, x, t) == Insert(sortBy, x, u) + [last];
      forall k | j <= k < |u|
        ensures Compare(sortBy, u[k], x) > 0.0
      {
        assert u[k] == t[k];
      }
      assert j > 0 ==> u[j - 1] == t[j - 1];
      InsertAt(sortBy, x, u, j);
      assert u[..j] == t[..j];
      assert u[j..] + [last] == t[j..];
    }
  }

  /** Appending an element that nothing compares after keeps a sequence
      sorted. */
  lemma SortedAppend(sortBy: string, s: seq<Product>, y: Product)
    requires Sorted(sortBy, s)
    requires forall i :: 0 <= i < |s| ==> Compare(sortBy, s[i], y) <= 0.0
    ensures Sorted(sortBy, s + [y])
  {
  }

  /** If neither `x` nor any element of `t` compares after `y`, no element of
      the insertion does. */
  lemma {:induction false} InsertBounded(sortBy: string, x: Product, t: seq<Product>, y: Product)
    requires forall i :: 0 <= i < |t| ==> Compare(sortBy, t[i], y) <= 0.0
    requires Compare(sortBy, x, y) <= 0.0
    ensures forall i :: 0 <= i < |t| + 1 ==> Compare(sortBy, Insert(sortBy, x, t)[i], y) <= 0.0
    decreases |t|
  {
    if t != [] && Compare(sortBy, t[|t| - 1], x) > 0.0 {
      var u := t[..|t| - 1];
      InsertBounded(sortBy, x, u, y);
      assert Insert(sortBy, x, t) == Insert(sortBy, x, u) + [t[|t| - 1]];
    }
  }

  /** Inserting into a sorted sequence keeps it sorted. */
  lemma {:induction false} InsertSorted(sortBy: string, x: Product, t: seq<Product>)
    requires Sorted(sortBy, t)
    ensures Sorted(sortBy, Insert(sortBy, x, t))
    decreases |t|
  {
    if t != [] {
      var u, last := t[..|t| - 1], t[|t| - 1];
      if Compare(sortBy, last, x) > 0.0 {
        InsertSorted(sortBy, x, u);
        CompareFlip(sortBy, last, x);
        InsertBounded(sortBy, x, u, last);
        SortedAppend(sortBy, Insert(sortBy, x, u), last);
      } else {
        forall i | 0 <= i < |t|
          ensures Compare(sortBy, t[i], x) <= 0.0
        {
          if i < |t| - 1 {
            CompareTransitive(sortBy, t[i], last, x);
          }
        }
        SortedAppend(sortBy, t, x);
      }
    }
  }

  /** Inserting `y` adds it at the end of its key's run: the elements of any
      one key keep their order. */
  lemma {:induction false} InsertSameKey(sortBy: string, y: Product, t: seq<Product>, x: Product)
    ensures SameKey(sortBy, Insert(sortBy, y, t), x)
         == SameKey(sortBy, t, x) + (if Compare(sortBy, y, x) == 0.0 then [y] else [])
    decreases |t|
  {
    if t == [] {
      assert SameKey(sortBy, [y], x) == SameKey(sortBy, [], x) + (if Compare(sortBy, y, x) == 0.0 then [y] else []);
    } else {
      var u, last := t[..|t| - 1], t[|t| - 1];
      if Compare(sortBy, last, y) > 0.0 {
        InsertSameKey(sortBy, y, u, x);
        var v := Insert(sortBy, y, u);
        assert (v + [last])[..|v|] == v;
        if Compare(sortBy, y, x) == 0.0 {
          CompareEquivalence(sortBy, last, y, x);
        }
      } else {
        assert (t + [y])[..|t|] == t;
      }
    }
  }

  /** Sorting is stable: for every key, its elements appear in the output in
      the order they had in the input. */
  lemma {:induction false} SortStable(sortBy: string, s: seq<Product>, x: Product)
    ensures SameKey(sortBy, SortSpec(sortBy, s), x) == SameKey(sortBy, s, x)
    decreases |s|
  {
    if s != [] {
      SortStable(sortBy, s[..|s| - 1], x);
      InsertSameKey(sortBy, s[|s| - 1], SortSpec(sortBy, s[..|s| - 1]), x);
    }
  }

  /** The output of the sort is sorted. */
  lemma {:induction false} SortSorted(sortBy: string, s: seq<Product>)
    ensures Sorted(sortBy, SortSpec(sortBy, s))
    decreases |s|
  {
    if s != [] {
      SortSorted(sortBy, s[..|s| - 1]);
      InsertSorted(sortBy, s[|s| - 1], SortSpec(sortBy, s[..|s| - 1]));
    }
  }

  /** Sorting an already sorted sequence leaves it as it is. */
  lemma {:induction false} SortOfSorted(sortBy: string, s: seq<Product>)
    requires Sorted(sortBy, s)
    ensures SortSpec(sortBy, s) == s
    decreases |s|
  {
    if s != [] {
      var u := s[..|s| - 1];
      assert Sorted(sortBy, u);
      SortOfSorted(sortBy, u);
      InsertAt(sortBy, s[|s| - 1], u, |u|);
      assert u + [s[|s| - 1]] == s;
    }
  }

  // ---------------------------------------------------------------------------
  // The in-place sort

  /** The shifting loop of one insertion step: moves every element of the
      sorted prefix `a[..i]` that compares after `a[i]` one place right, and
      returns the slot left free for `a[i]`. */
  method ShiftRight(a: array<Product>, i: nat, sortBy: string) returns (j: nat)
    requires i < a.Length
    modifies a
    ensures j <= i
    ensures forall k :: 0 <= k < j ==> a[k] == old(a[k])
    ensures forall k :: j < k <= i ==> a[k] == old(a[k - 1])
    ensures forall k :: i < k < a.Length ==> a[k] == old(a[k])
    ensures forall k :: j <= k < i ==> Compare(sortBy, old(a[k]), old(a[i])) > 0.0
    ensures j > 0 ==> Compare(sortBy, old(a[j - 1]), old(a[i])) <= 0.0
  {
    var x := a[i];
    j := i;
    while j > 0 && Compare(sortBy, a[j - 1], x) > 0.0
      invariant 0 <= j <= i
      invariant forall k :: 0 <= k < j ==> a[k] == old(a[k])
      invariant forall k :: j < k <= i ==> a[k] == old(a[k - 1])
      invariant forall k :: i < k < a.Length ==> a[k] == old(a[k])
      invariant forall k :: j <= k < i ==> Compare(sortBy, old(a[k]), x) > 0.0
    {
      a[j] := a[j - 1];
      j := j - 1;
    }
  }

  /** One step of the in-place sort: moves `a[i]` left past every element of
      the sorted prefix `a[..i]` that compares after it. */
  method InsertInPlace(a: array<Product>, i: nat, sortBy: string)
    requires i < a.Length
    modifies a
    ensures a[..i + 1] == Insert(sortBy, old(a[i]), old(a[..i]))
    ensures a[i + 1..] == old(a[i + 1..])
  {
    ghost var t := a[..i];
    var x := a[i];
    var j := ShiftRight(a, i, sortBy);
    a[j] := x;
    Shifted(old(a[..]), a[..], i, j, x);
    InsertAt(sortBy, x, t, j);
  }

  /** The array after the shift and the final write, as a sequence: the part
      before the slot, the inserted element, then the shifted part. */
  lemma Shifted(pre: seq<Product>, post: seq<Product>, i: nat, j: nat, x: Product)
    requires j <= i < |pre| == |post|
    requires forall k :: 0 <= k < j ==> post[k] == pre[k]
    requires post[j] == x
    requires forall k :: j < k <= i ==> post[k] == pre[k - 1]
    requires forall k :: i < k < |pre| ==> post[k] == pre[k]
    ensures post[..i + 1] == pre[..i][..j] + [x] + pre[..i][j..]
    ensures post[i + 1..] == pre[i + 1..]
  {
  }

  /** `array.sort(comparator)`: a stable insertion sort in place. */
  method SortInPlace(a: array<Product>, sortBy: string)
    modifies a
    ensures a[..] == SortSpec(sortBy, old(a[..]))
  {
    ghost var s := a[..];
    var i := 0;
    while i < a.Length
      invariant 0 <= i <= a.Length
      invariant a[..i] == SortSpec(sortBy, s[..i])
      invariant a[i..] == s[i..]
    {
      InsertInPlace(a, i, sortBy);
      assert s[..i + 1][..i] == s[..i];
      assert a[i + 1..] == s[i + 1..];
      i := i + 1;
    }
    assert s[..a.Length] == s;
  }
}

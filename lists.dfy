/**
  The managed list operations the block list and the block model use to build their
  duplicate-free tables: `List.Contains`, `List.Add` and `List.IndexOf` (first match, or -1).
  A table built by "add unless already present" from the items `xs`, starting from the list
  `s`, is `AddAll(s, xs)`; `Added(s, xs, n)` is the table after the first n items.
*/
module Lists {
  /** No element occurs twice. */
  predicate NoDup<T(==)>(s: seq<T>) {
    forall i, j :: 0 <= i < j < |s| ==> s[i] != s[j]
  }

  /** `List.IndexOf`: the first index holding `x`, or -1 when there is none (see `IndexOfRule`). */
  function IndexOf<T(==)>(s: seq<T>, x: T): (r: int)
    ensures -1 <= r < |s| && (0 <= r ==> s[r] == x)
  {
    if |s| == 0 then -1
    else if s[0] == x then 0
    else
      var r := IndexOf(s[1..], x);
      if r == -1 then -1 else r + 1
  }

  /** The index is -1 exactly when `x` is absent, and otherwise no earlier slot holds `x`. */
  lemma {:induction false} IndexOfRule<T>(s: seq<T>, x: T)
    ensures IndexOf(s, x) == -1 <==> x !in s
    ensures forall j :: 0 <= j < IndexOf(s, x) ==> s[j] != x
  {
    if |s| > 0 && s[0] != x {
      IndexOfRule(s[1..], x);
      assert s == [s[0]] + s[1..];
    }
  }

  /** `if (!list.Contains(x)) list.Add(x)`. */
  function AddIfAbsent<T(==)>(s: seq<T>, x: T): seq<T> {
    if x in s then s else s + [x]
  }

  /** After adding, `x` is present, what was there stays in place, and nothing else is added. */
  lemma AddIfAbsentRule<T>(s: seq<T>, x: T)
    ensures x in AddIfAbsent(s, x)
    ensures |s| <= |AddIfAbsent(s, x)| <= |s| + 1 && AddIfAbsent(s, x)[..|s|] == s
    ensures forall y :: y in AddIfAbsent(s, x) ==> y in s || y == x
    ensures NoDup(s) ==> NoDup(AddIfAbsent(s, x))
  {
  }

  /** The table after adding the first n items of `xs`, in order, to `s`. */
  function Added<T(==)>(s: seq<T>, xs: seq<T>, n: nat): seq<T>
    requires n <= |xs|
  {
    if n == 0 then s else AddIfAbsent(Added(s, xs, n - 1), xs[n - 1])
  }

  /** The table after adding every item of `xs`. */
  function AddAll<T(==)>(s: seq<T>, xs: seq<T>): seq<T> {
    Added(s, xs, |xs|)
  }

  /**
    Building the table keeps what was there in place, adds every item, adds nothing else, and
    adds nothing twice.
  */
  lemma {:induction false} AddedContents<T>(s: seq<T>, xs: seq<T>, n: nat)
    requires n <= |xs|
    ensures |Added(s, xs, n)| >= |s| && Added(s, xs, n)[..|s|] == s
    ensures forall k :: 0 <= k < n ==> xs[k] in Added(s, xs, n)
    ensures forall y :: y in Added(s, xs, n) ==> y in s || y in xs[..n]
    ensures NoDup(s) ==> NoDup(Added(s, xs, n))
  {
    if n > 0 {
      AddedContents(s, xs, n - 1);
      var t := Added(s, xs, n - 1);
      AddIfAbsentRule(t, xs[n - 1]);
      assert Added(s, xs, n)[..|t|] == t;
      assert Added(s, xs, n)[..|s|] == t[..|s|];
      forall y | y in Added(s, xs, n)
        ensures y in s || y in xs[..n]
      {
        if y in t && y !in s {
          assert y in xs[..n - 1];
          var k :| 0 <= k < n - 1 && xs[..n - 1][k] == y;
          assert xs[..n][k] == y;
        } else if y !in s {
          assert xs[..n][n - 1] == y;
        }
      }
    }
  }

  /** The table built from fewer items is a prefix of the table built from more. */
  lemma {:induction false} AddedPrefix<T>(s: seq<T>, xs: seq<T>, i: nat, j: nat)
    requires i <= j <= |xs|
    ensures |Added(s, xs, i)| <= |Added(s, xs, j)|
    ensures Added(s, xs, j)[..|Added(s, xs, i)|] == Added(s, xs, i)
    decreases j - i
  {
    if i < j {
      AddedPrefix(s, xs, i, j - 1);
      var t := Added(s, xs, j - 1);
      AddIfAbsentRule(t, xs[j - 1]);
      assert Added(s, xs, j)[..|t|] == t;
      assert Added(s, xs, j)[..|Added(s, xs, i)|] == t[..|Added(s, xs, i)|];
    }
  }

  /** The first index of an element already in a prefix does not change when the list grows. */
  lemma IndexOfInPrefix<T>(s: seq<T>, t: seq<T>, x: T)
    requires |t| <= |s| && s[..|t|] == t && x in t
    ensures IndexOf(s, x) == IndexOf(t, x)
  {
    var i :| 0 <= i < |t| && t[i] == x;
    assert s[i] == x;
    IndexOfRule(s, x);
    IndexOfRule(t, x);
  }

  /**
    The index looked up right after adding item i is its first index in the finished table,
    and that slot holds the item.
  */
  lemma IndexAfterAdd<T>(s: seq<T>, xs: seq<T>, i: nat)
    requires i < |xs|
    ensures IndexOf(Added(s, xs, i + 1), xs[i]) == IndexOf(AddAll(s, xs), xs[i])
    ensures 0 <= IndexOf(AddAll(s, xs), xs[i]) && AddAll(s, xs)[IndexOf(AddAll(s, xs), xs[i])] == xs[i]
  {
    AddedPrefix(s, xs, i + 1, |xs|);
    AddIfAbsentRule(Added(s, xs, i), xs[i]);
    IndexOfInPrefix(AddAll(s, xs), Added(s, xs, i + 1), xs[i]);
    IndexOfRule(Added(s, xs, i + 1), xs[i]);
  }

  /**
    A table built from the empty list holds the items in the order of their first
    appearance: each entry's first index among the items comes before the next entry's.
  */
  lemma {:induction false} AddedFirstAppearance<T>(xs: seq<T>, n: nat)
    requires n <= |xs|
    ensures forall p :: 0 <= p < |Added([], xs, n)| ==> 0 <= IndexOf(xs, Added([], xs, n)[p]) < n
    ensures forall p, q :: 0 <= p < q < |Added([], xs, n)| ==>
      IndexOf(xs, Added([], xs, n)[p]) < IndexOf(xs, Added([], xs, n)[q])
  {
    if n > 0 {
      AddedFirstAppearance(xs, n - 1);
      var t := Added([], xs, n - 1);
      var x := xs[n - 1];
      if x !in t {
        AppendedIsNew(xs, n - 1);
        var r := t + [x];
        assert Added([], xs, n) == r;
        forall p, q | 0 <= p < q < |r|
          ensures IndexOf(xs, r[p]) < IndexOf(xs, r[q])
        {
          if q < |t| {
            assert r[p] == t[p] && r[q] == t[q];
          } else {
            assert r[p] == t[p];
          }
        }
        forall p | 0 <= p < |r|
          ensures 0 <= IndexOf(xs, r[p]) < n
        {
          if p < |t| {
            assert r[p] == t[p];
          }
        }
      }
    }
  }

  /** An item not yet in the table appears among the items for the first time where it is added. */
  lemma AppendedIsNew<T>(xs: seq<T>, k: nat)
    requires k < |xs| && xs[k] !in Added([], xs, k)
    ensures IndexOf(xs, xs[k]) == k
  {
    AddedContents([], xs, k);
    assert forall j :: 0 <= j < k ==> xs[j] != xs[k];
    IndexOfRule(xs, xs[k]);
  }

  /** The whole table is in first-appearance order. */
  lemma AddAllFirstAppearance<T>(xs: seq<T>, i: nat, j: nat)
    requires i < j < |AddAll([], xs)|
    ensures 0 <= IndexOf(xs, AddAll([], xs)[i]) < IndexOf(xs, AddAll([], xs)[j])
  {
    AddedFirstAppearance(xs, |xs|);
  }
}

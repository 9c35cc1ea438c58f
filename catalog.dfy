/** The content catalog shared by the Stories and Games screens: a fixed seed
    array of items that each screen sorts in place by like count, highest
    first, every time it renders the list. */
module Catalog {

  /** One catalog entry (a story or a game). Nothing in the screens changes
      an entry; only the order of the entries in the seed array changes. */
  datatype Item = Item(id: string, title: string, likes: nat)

  /** The order the list is displayed in: like counts never increase. */
  ghost predicate NonIncreasing(s: seq<Item>)
  {
    forall i, j :: 0 <= i < j < |s| ==> s[i].likes >= s[j].likes
  }

  /** Like counts strictly decrease: a list without ties, already in display order. */
  ghost predicate StrictlyDecreasing(s: seq<Item>)
  {
    forall i, j :: 0 <= i < j < |s| ==> s[i].likes > s[j].likes
  }

  /** No two entries share an id (the list's key extractor relies on this). */
  ghost predicate DistinctIds(s: seq<Item>)
  {
    forall i, j :: 0 <= i < j < |s| ==> s[i].id != s[j].id
  }

  /** Exchanges two slots of the array and touches nothing else. */
  method Swap(a: array<Item>, i: nat, j: nat)
    requires i < a.Length && j < a.Length
    modifies a
    ensures a[i] == old(a[j]) && a[j] == old(a[i])
    ensures forall k :: 0 <= k < a.Length && k != i && k != j ==> a[k] == old(a[k])
    ensures multiset(a[..]) == multiset(old(a[..]))
  {
    a[i], a[j] := a[j], a[i];
  }

  /** One insertion step: with `a[..i]` already in display order, moves
      `a[i]` left past every entry with strictly fewer likes, so that
      `a[..i + 1]` is in display order. Entries after `i` are not touched,
      and an entry that is already in place is not moved. */
  method InsertAt(a: array<Item>, i: nat)
    requires i < a.Length
    requires NonIncreasing(a[..i])
    modifies a
    ensures NonIncreasing(a[..i + 1])
    ensures multiset(a[..]) == multiset(old(a[..]))
    ensures forall k :: i < k < a.Length ==> a[k] == old(a[k])
    ensures (i == 0 || old(a[i - 1].likes) >= old(a[i].likes)) ==> a[..] == old(a[..])
  {
    var j := i;
    while j > 0 && a[j - 1].likes < a[j].likes
      invariant 0 <= j <= i
      invariant forall p, q :: 0 <= p < q <= i && p != j && q != j ==> a[p].likes >= a[q].likes
      invariant forall q :: j < q <= i ==> a[j].likes > a[q].likes
      invariant forall k :: i < k < a.Length ==> a[k] == old(a[k])
      invariant multiset(a[..]) == multiset(old(a[..]))
      invariant j == i ==> a[..] == old(a[..])
      invariant (i == 0 || old(a[i - 1].likes) >= old(a[i].likes)) ==> j == i
    {
      Swap(a, j - 1, j);
      j := j - 1;
    }
  }

  /** `items.sort((a, b) => b.likes - a.likes)`: an in-place stable sort by
      like count, highest first. The result is in display order and a
      permutation of the input; an input already in display order is left as
      it is, so sorting a second time changes nothing. */
  method SortByLikesDesc(a: array<Item>)
    modifies a
    ensures NonIncreasing(a[..])
    ensures multiset(a[..]) == multiset(old(a[..]))
    ensures NonIncreasing(old(a[..])) ==> a[..] == old(a[..])
  {
    var i := 0;
    while i < a.Length
      invariant 0 <= i <= a.Length
      invariant NonIncreasing(a[..i])
      invariant multiset(a[..]) == multiset(old(a[..]))
      invariant NonIncreasing(old(a[..])) ==> a[..] == old(a[..])
    {
      InsertAt(a, i);
      i := i + 1;
    }
    assert a[..a.Length] == a[..];
  }

  /** A list in display order whose like counts are all different is the
      only ordering of its entries that is in display order: any sort of it,
      stable or not, gives it back unchanged. */
  lemma {:induction false} OrderedPermutationUnique(s: seq<Item>, t: seq<Item>)
    requires StrictlyDecreasing(s)
    requires NonIncreasing(t)
    requires multiset(t) == multiset(s)
    ensures t == s
  {
    assert |t| == |multiset(t)| == |multiset(s)| == |s|;
    if |s| > 0 {
      assert t[0] == s[0] by {
        assert t[0] in multiset(s);
        var k :| 0 <= k < |s| && s[k] == t[0];
        assert s[0] in multiset(t);
        var m :| 0 <= m < |t| && t[m] == s[0];
        assert t[0].likes >= t[m].likes;
      }
      var s', t' := s[1..], t[1..];
      assert multiset(t') == multiset(s') by {
        assert s == [s[0]] + s';
        assert t == [s[0]] + t';
        assert multiset(s) == multiset{s[0]} + multiset(s');
        assert multiset(t) == multiset{s[0]} + multiset(t');
        forall x ensures multiset(t')[x] == multiset(s')[x] {
          assert multiset(t)[x] == multiset{s[0]}[x] + multiset(t')[x];
          assert multiset(s)[x] == multiset{s[0]}[x] + multiset(s')[x];
        }
      }
      assert StrictlyDecreasing(s') by {
        forall i, j | 0 <= i < j < |s'| ensures s'[i].likes > s'[j].likes {
          assert s'[i] == s[i + 1] && s'[j] == s[j + 1];
        }
      }
      assert NonIncreasing(t') by {
        forall i, j | 0 <= i < j < |t'| ensures t'[i].likes >= t'[j].likes {
          assert t'[i] == t[i + 1] && t'[j] == t[j + 1];
        }
      }
      OrderedPermutationUnique(s', t');
      assert t == [t[0]] + t';
      assert s == [s[0]] + s';
    }
  }

  /** The module-level seed array of one screen. `Render` is the expression
      `mockItems.sort(...)` evaluated when the list is drawn: it reorders the
      shared array in place and hands the array itself to the list. */
  class SeedCatalog {
    var items: array<Item>

    constructor (seed: seq<Item>)
      ensures fresh(items) && items[..] == seed
    {
      items := new Item[|seed|](i requires 0 <= i < |seed| => seed[i]);
    }

    method Render() returns (shown: seq<Item>)
      modifies items
      ensures shown == items[..]
      ensures NonIncreasing(shown)
      ensures multiset(shown) == multiset(old(items[..]))
      ensures NonIncreasing(old(items[..])) ==> shown == old(items[..])
    {
      SortByLikesDesc(items);
      shown := items[..];
    }
  }
}

/**
 * The promotions screen (components/promo-manager.tsx): promotions filtered
 * to those already in a list or not at all, sorted in place by score, best
 * first, and a colour tier per score.
 */
module PromoManager {
  import opened Sequences

  datatype Promo = Promo(
    id: string,
    title: string,
    description: string,
    discount: real,
    regularPrice: real,
    salePrice: real,
    validUntil: string,
    store: string,
    category: string,
    score: real,
    inMyList: bool)

  /** The two filter buttons: "all" and "mylist". */
  datatype PromoFilter = All | MyList

  /** The badge colour tier of a score. */
  datatype Tier = Green | Orange | Red

  /** `filteredPromos`, on values: every promo, or those already in a list. */
  function Filtered(promos: seq<Promo>, filter: PromoFilter): (r: seq<Promo>)
    ensures filter == All ==> r == promos
    ensures filter == MyList ==> forall p :: p in r <==> p in promos && p.inMyList
  {
    if filter == MyList then Filter(promos, (p: Promo) => p.inMyList) else promos
  }

  /** Non-increasing score from left to right. */
  ghost predicate SortedByScore(s: seq<Promo>) {
    forall i, j :: 0 <= i < j < |s| ==> s[i].score >= s[j].score
  }

  /** `promos.sort((a, b) => b.score - a.score)`: sorts the array itself, best score first. */
  method SortByScore(a: array<Promo>)
    modifies a
    ensures SortedByScore(a[..])
    ensures multiset(a[..]) == old(multiset(a[..]))
  {
    var i := 0;
    while i < a.Length
      invariant 0 <= i <= a.Length
      invariant forall p, q :: 0 <= p < q < i ==> a[p].score >= a[q].score
      invariant multiset(a[..]) == old(multiset(a[..]))
    {
      InsertAt(a, i);
      i := i + 1;
    }
  }

  /** One insertion step: moves `a[i]` left past every lower score before it. */
  method InsertAt(a: array<Promo>, i: int)
    requires 0 <= i < a.Length
    requires forall p, q :: 0 <= p < q < i ==> a[p].score >= a[q].score
    modifies a
    ensures forall p, q :: 0 <= p < q <= i ==> a[p].score >= a[q].score
    ensures multiset(a[..]) == old(multiset(a[..]))
  {
    var j := i;
    while j > 0 && a[j - 1].score < a[j].score
      invariant 0 <= j <= i
      invariant forall p, q :: 0 <= p < q <= i && p != j && q != j ==> a[p].score >= a[q].score
      invariant forall q :: j < q <= i ==> a[j].score >= a[q].score
      invariant multiset(a[..]) == old(multiset(a[..]))
    {
      SwapDown(a, j);
      j := j - 1;
    }
  }

  /** Exchanges `a[j - 1]` and `a[j]`. */
  method SwapDown(a: array<Promo>, j: int)
    requires 0 < j < a.Length
    modifies a
    ensures a[j - 1] == old(a[j]) && a[j] == old(a[j - 1])
    ensures forall k :: 0 <= k < a.Length && k != j - 1 && k != j ==> a[k] == old(a[k])
    ensures multiset(a[..]) == old(multiset(a[..]))
  {
    a[j - 1], a[j] := a[j], a[j - 1];
  }

  /** The badge tier: 90 and above, 75 up to 90, below 75. */
  function ScoreTier(score: real): (t: Tier)
    ensures t == Green <==> score >= 90.0
    ensures t == Orange <==> 75.0 <= score < 90.0
    ensures t == Red <==> score < 75.0
  {
    if score >= 90.0 then Green
    else if score >= 75.0 then Orange
    else Red
  }

  /** `getScoreColor`: the class names of a score's badge. */
  function GetScoreColor(score: real): (cls: string)
    ensures cls == ClassName(ScoreTier(score))
  {
    if score >= 90.0 then "text-green-600 bg-green-100"
    else if score >= 75.0 then "text-orange-600 bg-orange-100"
    else "text-red-600 bg-red-100"
  }

  function ClassName(t: Tier): string {
    match t
    case Green => "text-green-600 bg-green-100"
    case Orange => "text-orange-600 bg-orange-100"
    case Red => "text-red-600 bg-red-100"
  }

  /** Tiers ordered from worst to best. */
  function Rank(t: Tier): nat {
    match t
    case Red => 0
    case Orange => 1
    case Green => 2
  }

  /** The component's state: the promotions array (never replaced) and the filter. */
  class PromoScreen {
    const promos: array<Promo>
    var filter: PromoFilter

    constructor (initial: seq<Promo>)
      ensures fresh(promos) && promos[..] == initial && filter == All
    {
      promos := new Promo[|initial|](i requires 0 <= i < |initial| => initial[i]);
      filter := All;
    }

    method SetFilter(f: PromoFilter)
      modifies this
      ensures filter == f
    {
      filter := f;
    }

    /**
     * One render: with "all" the filter returns the state array itself and the
     * sort reorders it; with "mylist" a fresh array is filtered and sorted and
     * the state is untouched.
     */
    method SortedPromos() returns (sorted: array<Promo>)
      modifies promos
      ensures SortedByScore(sorted[..])
      ensures multiset(sorted[..]) == multiset(Filtered(old(promos[..]), filter))
      ensures filter == All ==> sorted == promos
      ensures filter == MyList ==> fresh(sorted) && promos[..] == old(promos[..])
    {
      var filtered: array<Promo>;
      if filter == MyList {
        var kept := Filter(promos[..], (p: Promo) => p.inMyList);
        filtered := new Promo[|kept|](i requires 0 <= i < |kept| => kept[i]);
        assert filtered[..] == kept;
      } else {
        filtered := promos;
      }
      SortByScore(filtered);
      sorted := filtered;
    }
  }

  /** A higher score never gets a worse tier. */
  lemma TierMonotone(s1: real, s2: real)
    requires s1 <= s2
    ensures Rank(ScoreTier(s1)) <= Rank(ScoreTier(s2))
  {
  }

  /** In a sorted promotion list the badge tiers never improve further down. */
  lemma SortedTiers(s: seq<Promo>)
    requires SortedByScore(s)
    ensures forall i, j :: 0 <= i < j < |s| ==> Rank(ScoreTier(s[i].score)) >= Rank(ScoreTier(s[j].score))
  {
    forall i, j | 0 <= i < j < |s|
      ensures Rank(ScoreTier(s[i].score)) >= Rank(ScoreTier(s[j].score))
    {
      TierMonotone(s[j].score, s[i].score);
    }
  }

  /** The "mylist" filter keeps the promotions in their original order, and "all" keeps them all. */
  lemma FilteredInOrder(promos: seq<Promo>, filter: PromoFilter)
    ensures IsSubsequence(Filtered(promos, filter), promos)
  {
    if filter == MyList {
      FilterIsSubsequence(promos, (p: Promo) => p.inMyList);
    } else {
      FilterKeepsAll(promos, (p: Promo) => true);
      FilterIsSubsequence(promos, (p: Promo) => true);
    }
  }
}

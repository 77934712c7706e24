/** The search box of the public shop directory: a case-insensitive
    substring match on a shop's name or description. */
module ShopsSearch {
  import opened Strings
  import opened Records

  /** The filter's test for one shop. A missing or empty description never
      matches. */
  predicate Matches(shop: Shop, term: string)
  {
    Includes(Lower(shop.name), Lower(term)) ||
    (Truthy(shop.description) && Includes(Lower(shop.description.value), Lower(term)))
  }

  /** `filteredShops`. */
  function FilterShops(shops: seq<Shop>, term: string): (r: seq<Shop>)
    ensures |r| <= |shops|
  {
    if shops == [] then []
    else (if Matches(shops[0], term) then [shops[0]] else []) + FilterShops(shops[1..], term)
  }

  /** A shop is listed iff it is in the directory and matches the term. */
  lemma {:induction false} FilterShopsMembers(shops: seq<Shop>, term: string)
    ensures forall s :: s in FilterShops(shops, term) <==> s in shops && Matches(s, term)
  {
    if shops != [] {
      FilterShopsMembers(shops[1..], term);
      assert forall s :: s in shops <==> s == shops[0] || s in shops[1..];
    }
  }

  /** The filter works piece by piece, so the listing keeps the directory's
      order. */
  lemma {:induction false} FilterShopsConcat(a: seq<Shop>, b: seq<Shop>, term: string)
    ensures FilterShops(a + b, term) == FilterShops(a, term) + FilterShops(b, term)
  {
    if a == [] {
      assert a + b == b;
    } else {
      var ab := a + b;
      assert ab[0] == a[0] && ab[1..] == a[1..] + b;
      var head := if Matches(a[0], term) then [a[0]] else [];
      assert FilterShops(ab, term) == head + FilterShops(ab[1..], term);
      assert FilterShops(a, term) == head + FilterShops(a[1..], term);
      FilterShopsConcat(a[1..], b, term);
    }
  }

  /** An empty search box lists every shop. */
  lemma {:induction false} EmptyTermKeepsAll(shops: seq<Shop>)
    ensures FilterShops(shops, "") == shops
  {
    if shops != [] {
      EmptyIncluded(Lower(shops[0].name));
      assert Lower("") == "";
      EmptyTermKeepsAll(shops[1..]);
    }
  }

  /** Terms that agree once lowercased list the same shops. */
  lemma {:induction false} SameLowerSameListing(shops: seq<Shop>, t1: string, t2: string)
    requires Lower(t1) == Lower(t2)
    ensures FilterShops(shops, t1) == FilterShops(shops, t2)
  {
    if shops != [] {
      SameLowerSameListing(shops[1..], t1, t2);
    }
  }

  /** Upper-casing a term does not change what it lowercases to. */
  lemma LowerOfUpper(t: string)
    ensures Lower(Upper(t)) == Lower(t)
  {
    forall i | 0 <= i < |t|
      ensures Lower(Upper(t))[i] == Lower(t)[i]
    {
      var c := t[i];
      if IsLowerAscii(c) {
        assert ToUpperChar(c) as int == c as int - 32;
        assert ToLowerChar(ToUpperChar(c)) as int == c as int;
      }
    }
  }

  /** The search is not sensitive to the letter case of the term. */
  lemma TermCaseIgnored(shops: seq<Shop>, term: string)
    ensures FilterShops(shops, Upper(term)) == FilterShops(shops, Lower(term)) == FilterShops(shops, term)
  {
    LowerOfUpper(term);
    LowerIdempotent(term);
    SameLowerSameListing(shops, Upper(term), term);
    SameLowerSameListing(shops, Lower(term), term);
  }

  /** The heading shown when nothing is listed. */
  function EmptyStateTitle(term: string): (r: string)
    ensures r == "No shops found" <==> term != ""
    ensures r == "No shops yet" <==> term == ""
  {
    if term != "" then "No shops found" else "No shops yet"
  }

  /** The line under that heading. */
  function EmptyStateHint(term: string): (r: string)
    ensures term != "" <==> r == "Try adjusting your search terms or browse all shops."
  {
    if term != "" then "Try adjusting your search terms or browse all shops."
    else "Be the first to create a beautiful shop!"
  }
}

/**
 * The query filter of `components/search-dialog.tsx`: a case-insensitive
 * substring match over name, category and description, showing at most six
 * products in catalogue order.
 */
module Search {
  import opened Wrappers
  import opened Seqs
  import opened JsString

  /** The fields of a catalogue product the search reads. */
  datatype Listing = Listing(id: string, name: string, category: string, description: Option<string>)

  const MaxResults: nat := 6

  /** A missing description never matches (`description?.…` is `undefined`). */
  function Matches(p: Listing, query: string): (m: bool)
    // the empty query matches every product
    ensures query == "" ==> m
  {
    var q := ToLower(query);
    Includes(ToLower(p.name), q) || Includes(ToLower(p.category), q)
    || (p.description.Some? && Includes(ToLower(p.description.value), q))
  }

  /** The filter callback, for a fixed query. */
  function MatchesQuery(query: string): Listing -> bool {
    (p: Listing) => Matches(p, query)
  }

  function MatchingProducts(all: seq<Listing>, query: string): seq<Listing> {
    Filter(all, MatchesQuery(query))
  }

  /** The effect's result list. The untrimmed query is the one matched. */
  function Results(all: seq<Listing>, query: string): (r: seq<Listing>)
    ensures |r| <= MaxResults
    ensures Trim(query) == "" ==> r == all[..if |all| < MaxResults then |all| else MaxResults]
    ensures Trim(query) != "" ==> forall i :: 0 <= i < |r| ==> r[i] in all && Matches(r[i], query)
    ensures Trim(query) != "" ==>
      var m := MatchingProducts(all, query);
      r <= m && |r| == if |m| < MaxResults then |m| else MaxResults
  {
    if Trim(query) == "" then Take(all, MaxResults)
    else
      var m := MatchingProducts(all, query);
      var taken := Take(m, MaxResults);
      TakenAreMatches(all, query, m, taken);
      taken
  }

  /** A prefix of the matching products holds only catalogue products that match. */
  lemma TakenAreMatches(all: seq<Listing>, query: string, m: seq<Listing>, taken: seq<Listing>)
    requires m == MatchingProducts(all, query) && taken <= m
    ensures forall i :: 0 <= i < |taken| ==> taken[i] in all && Matches(taken[i], query)
  {
    MatchingAreMatches(all, query);
    forall i | 0 <= i < |taken| ensures taken[i] in all && Matches(taken[i], query) {
      assert taken[i] == m[i];
    }
  }

  /** Each matching product is a catalogue product that matches. */
  lemma MatchingAreMatches(all: seq<Listing>, query: string)
    ensures var m := MatchingProducts(all, query);
      forall i :: 0 <= i < |m| ==> m[i] in all && Matches(m[i], query)
  {
    var m := MatchingProducts(all, query);
    forall i | 0 <= i < |m| ensures m[i] in all && Matches(m[i], query) {
      assert MatchesQuery(query)(m[i]);
    }
  }

  /** A query longer than every searched field cannot match. */
  lemma LongQueryNeverMatches(p: Listing, query: string)
    requires |query| > |p.name| && |query| > |p.category|
    requires p.description.Some? ==> |query| > |p.description.value|
    ensures !Matches(p, query)
  {
    var q := ToLower(query);
    IncludesNeedsRoom(ToLower(p.name), q);
    IncludesNeedsRoom(ToLower(p.category), q);
    if p.description.Some? {
      IncludesNeedsRoom(ToLower(p.description.value), q);
    }
  }

  /** Every matching product shows up when fewer than seven match. */
  lemma FewMatchesAllShown(all: seq<Listing>, query: string, p: Listing)
    requires Trim(query) != "" && |MatchingProducts(all, query)| <= MaxResults
    requires p in all && Matches(p, query)
    ensures p in Results(all, query)
  {
    var i :| 0 <= i < |all| && all[i] == p;
    assert MatchesQuery(query)(all[i]);
    FilterKeepsPassing(all, MatchesQuery(query));
  }

  /** Lower-casing twice changes nothing, so the matching sees only the lower-cased query. */
  lemma MatchesIgnoresCase(p: Listing, q1: string, q2: string)
    requires ToLower(q1) == ToLower(q2)
    ensures Matches(p, q1) == Matches(p, q2)
  {
  }

  /** Queries that differ only in ASCII case give identical results. */
  lemma ResultsIgnoreCase(all: seq<Listing>, q1: string, q2: string)
    requires ToLower(q1) == ToLower(q2)
    ensures Results(all, q1) == Results(all, q2)
  {
    assert |q1| == |q2|;
    assert (Trim(q1) == "") == (Trim(q2) == "") by {
      forall i | 0 <= i < |q1|
        ensures IsWhitespace(q1[i]) == IsWhitespace(q2[i])
      {
        assert LowerChar(q1[i]) == LowerChar(q2[i]);
        LowerCharWhitespace(q1[i]);
        LowerCharWhitespace(q2[i]);
      }
    }
    forall i | 0 <= i < |all|
      ensures MatchesQuery(q1)(all[i]) == MatchesQuery(q2)(all[i])
    {
      MatchesIgnoresCase(all[i], q1, q2);
    }
    FilterCongruent(all, MatchesQuery(q1), MatchesQuery(q2));
  }

  /** Surrounding spaces are matched too: " shirt" does not find a product named just "Shirt". */
  lemma UntrimmedQueryMatters()
    ensures !Matches(Listing("1", "Shirt", "tops", None), " shirt")
    ensures Matches(Listing("1", "Shirt", "tops", None), "shirt")
  {
    var q := ToLower(" shirt");
    assert q == " shirt";
    assert !Includes(ToLower("Shirt"), q) by {
      IncludesIff(ToLower("Shirt"), q);
    }
    assert !Includes(ToLower("tops"), q) by {
      IncludesIff(ToLower("tops"), q);
    }
    assert ToLower("Shirt") == "shirt";
    assert ToLower("shirt") == "shirt";
  }

  /** A product without a description is found only through its name or category. */
  lemma MissingDescriptionNeverMatches(p: Listing, query: string)
    requires p.description.None?
    ensures Matches(p, query) <==> Includes(ToLower(p.name), ToLower(query)) || Includes(ToLower(p.category), ToLower(query))
  {
  }
}

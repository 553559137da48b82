/**
 * The template marketplace page: the fixed catalogue, the filter-then-sort chain that lists the
 * templates, the button label, and the click handler that marks a template as loading and
 * navigates to the generator.
 */
module Marketplace {
  import opened Outcomes
  import opened Js

  datatype Category = Legal | Business | HR | Startup | Compliance
  datatype Complexity = Simple | Moderate | Complex
  datatype Price = Free | Premium

  /** A filter drop-down: `'all'`, or one value. */
  datatype Choice<T> = All | Only(value: T)

  datatype SortBy = Popular | Newest | Rating

  /** A catalogue entry; the rating is kept in tenths (4.8 is 48). */
  datatype Template = Template(
    id: nat, title: string, category: Category, description: string, complexity: Complexity,
    ratingTenths: nat, downloads: nat, price: Price)

  /**
   * The catalogue, in its source order. Each long text is written as a `+` of short literals: it
   * is the same string, and the verifier handles short literals much faster.
   */
  function Templates(): seq<Template> {
    [ Template(1, "Non-Disclosure " + "Agreement (NDA)", Legal, "A standard mutual NDA " + "to protect " + "confidential " + "information shared " + "between parties.", Simple, 48, 1245, Free),
      Template(2, "Memorandum of " + "Understanding (MOU)", Business, "Outline the broad " + "strokes of an " + "agreement before " + "diving into a formal " + "contract.", Moderate, 45, 876, Free),
      Template(3, "Privacy Policy", Legal, "A comprehensive " + "privacy policy " + "template for websites " + "and mobile " + "applications.", Complex, 47, 2109, Premium),
      Template(4, "Employment Agreement", HR, "Define terms of " + "employment, " + "responsibilities, and " + "compensation for a " + "new hire.", Moderate, 46, 1532, Premium),
      Template(5, "Investor Agreement", Startup, "A simple agreement " + "for startups raising " + "a seed round from " + "angel investors.", Complex, 49, 987, Premium),
      Template(6, "Vendor Contract", Business, "Formalize your " + "relationship with a " + "service provider or " + "vendor.", Moderate, 44, 765, Free),
      Template(7, "Consulting Agreement", Business, "Hire a consultant " + "with clearly defined " + "scope, deliverables, " + "and payment terms.", Moderate, 45, 654, Premium),
      Template(8, "Employee Handbook", HR, "A complete employee " + "handbook template " + "covering company " + "policies, culture, " + "and procedures.", Complex, 47, 1123, Premium),
      Template(9, "Term Sheet", Startup, "A non-binding " + "agreement outlining " + "the basic terms and " + "conditions of an " + "investment.", Moderate, 46, 876, Free),
      Template(10, "GDPR Compliance " + "Checklist", Compliance, "Ensure your business " + "complies with GDPR " + "regulations with this " + "detailed checklist.", Complex, 48, 1345, Premium),
      Template(11, "PCI DSS Compliance Guide", Compliance, "Step-by-step guide to " + "achieving PCI DSS " + "compliance for your " + "business.", Complex, 47, 987, Premium),
      Template(12, "HIPAA Compliance " + "Checklist", Compliance, "Comprehensive " + "checklist for " + "healthcare " + "organizations to " + "ensure HIPAA " + "compliance.", Complex, 49, 1109, Premium),
      Template(13, "Offer Letter", HR, "Extend a formal job " + "offer to a candidate " + "with this " + "customizable template.", Simple, 45, 1654, Free),
      Template(14, "Partnership Agreement", Business, "Establish roles, " + "responsibilities, and " + "ownership stakes for " + "business partners.", Complex, 46, 932, Premium),
      Template(15, "IT Security Policy", Compliance, "Comprehensive IT " + "security policy " + "template for " + "organizations of all " + "sizes.", Moderate, 47, 876, Premium) ]
  }

  /** The `k`-th catalogue entry has id `k + 1`. */
  lemma CatalogueIds()
    ensures |Templates()| == 15
    ensures forall k :: 0 <= k < 15 ==> Templates()[k].id == k + 1
  {
  }

  /** Catalogue ids are pairwise distinct, so an id names one template. */
  lemma CatalogueIdsDistinct()
    ensures forall a, b :: a in Templates() && b in Templates() && a.id == b.id ==> a == b
    ensures Distinct(Templates())
  {
    CatalogueIds();
    NumberedIdsDistinct(Templates());
  }

  /** A list whose `k`-th entry has id `k + 1` has pairwise distinct ids. */
  lemma NumberedIdsDistinct(ts: seq<Template>)
    requires forall k :: 0 <= k < |ts| ==> ts[k].id == k + 1
    ensures forall a, b :: a in ts && b in ts && a.id == b.id ==> a == b
    ensures Distinct(ts)
  {
    forall a, b | a in ts && b in ts && a.id == b.id ensures a == b {
      var i :| 0 <= i < |ts| && ts[i] == a;
      var j :| 0 <= j < |ts| && ts[j] == b;
      assert i + 1 == j + 1;
    }
  }

  /** The search box, the three drop-downs. */
  datatype Filters = Filters(searchTerm: string, category: Choice<Category>, complexity: Choice<Complexity>, price: Choice<Price>)

  predicate Allows<T(==)>(c: Choice<T>, v: T) {
    c.All? || c.value == v
  }

  /** The term, lower-cased, occurs in the lower-cased title or description. */
  predicate SearchMatches(t: Template, term: string) {
    Contains(ToLower(t.title), ToLower(term)) || Contains(ToLower(t.description), ToLower(term))
  }

  predicate Matches(t: Template, f: Filters) {
    Allows(f.category, t.category) && Allows(f.complexity, t.complexity) && Allows(f.price, t.price)
    && SearchMatches(t, f.searchTerm)
  }

  /** The number the comparator subtracts: `b.key - a.key` sorts by it, largest first. */
  function SortKey(t: Template, order: SortBy): nat {
    match order
    case Popular => t.downloads
    case Rating => t.ratingTenths
    case Newest => t.id
  }

  ghost predicate SortedBy(s: seq<Template>, order: SortBy) {
    forall i, j :: 0 <= i < j < |s| ==> SortKey(s[i], order) >= SortKey(s[j], order)
  }

  /** Puts `x` before the first entry whose key is not larger, so it stays ahead of later equal keys. */
  function Insert(x: Template, s: seq<Template>, order: SortBy): (r: seq<Template>)
    ensures multiset(r) == multiset(s) + multiset{x}
  {
    if s == [] || SortKey(x, order) >= SortKey(s[0], order) then [x] + s
    else
      assert s == [s[0]] + s[1..];
      [s[0]] + Insert(x, s[1..], order)
  }

  /** `Array.prototype.sort` with the comparator above; it is stable. */
  function SortTemplates(xs: seq<Template>, order: SortBy): (r: seq<Template>)
    ensures multiset(r) == multiset(xs)
  {
    if xs == [] then []
    else
      assert xs == [xs[0]] + xs[1..];
      Insert(xs[0], SortTemplates(xs[1..], order), order)
  }

  /** A key no smaller than every key of a sorted list can go in front of it. */
  lemma {:induction false} SortedCons(y: Template, s: seq<Template>, order: SortBy)
    requires SortedBy(s, order)
    requires forall z :: z in s ==> SortKey(y, order) >= SortKey(z, order)
    ensures SortedBy([y] + s, order)
  {
    var r := [y] + s;
    forall i, j | 0 <= i < j < |r| ensures SortKey(r[i], order) >= SortKey(r[j], order) {
      assert r[j] == s[j - 1];
      if i > 0 {
        assert r[i] == s[i - 1];
      }
    }
  }

  lemma {:induction false} InsertSorted(x: Template, s: seq<Template>, order: SortBy)
    requires SortedBy(s, order)
    ensures SortedBy(Insert(x, s, order), order)
  {
    if s == [] {
      SortedCons(x, s, order);
    } else if SortKey(x, order) >= SortKey(s[0], order) {
      forall z | z in s ensures SortKey(x, order) >= SortKey(z, order) {
        var k :| 0 <= k < |s| && s[k] == z;
        if k > 0 {
          assert SortKey(s[0], order) >= SortKey(s[k], order);
        }
      }
      SortedCons(x, s, order);
    } else {
      var rest := Insert(x, s[1..], order);
      assert SortedBy(s[1..], order);
      InsertSorted(x, s[1..], order);
      forall y | y in rest ensures SortKey(s[0], order) >= SortKey(y, order) {
        assert y in multiset(rest);
        if y != x {
          assert y in s[1..];
        }
      }
      SortedCons(s[0], rest, order);
    }
  }

  lemma {:induction false} SortSorted(xs: seq<Template>, order: SortBy)
    ensures SortedBy(SortTemplates(xs, order), order)
  {
    if xs != [] {
      SortSorted(xs[1..], order);
      InsertSorted(xs[0], SortTemplates(xs[1..], order), order);
    }
  }

  /** A permutation of a duplicate-free list is duplicate-free. */
  lemma {:induction false} PermutationDistinct(a: seq<Template>, b: seq<Template>)
    requires Distinct(a) && multiset(a) == multiset(b)
    ensures Distinct(b)
  {
    forall i, j | 0 <= i < j < |b| ensures b[i] != b[j] {
      if b[i] == b[j] {
        RepeatCounted(b, i, j);
        DistinctCount(a, b[i]);
      }
    }
  }

  /** An element found at two indices occurs at least twice. */
  lemma RepeatCounted(b: seq<Template>, i: nat, j: nat)
    requires i < j < |b| && b[i] == b[j]
    ensures multiset(b)[b[i]] >= 2
  {
    assert b == b[..j] + b[j..];
    assert b[..j][i] == b[i] && b[j..][0] == b[i];
    assert b[i] in multiset(b[..j]) && b[i] in multiset(b[j..]);
  }

  /** In a duplicate-free list every element occurs at most once. */
  lemma {:induction false} DistinctCount(a: seq<Template>, x: Template)
    requires Distinct(a)
    ensures multiset(a)[x] <= 1
  {
    if a != [] {
      assert a == [a[0]] + a[1..];
      assert Distinct(a[1..]);
      DistinctCount(a[1..], x);
      if a[0] == x {
        assert x !in a[1..];
      }
    }
  }

  /** A filter keeps a duplicate-free list duplicate-free. */
  lemma {:induction false} FilterDistinct(xs: seq<Template>, keep: Template -> bool)
    requires Distinct(xs)
    ensures Distinct(Filter(xs, keep))
  {
    if xs != [] {
      assert Distinct(xs[1..]);
      FilterDistinct(xs[1..], keep);
      if keep(xs[0]) {
        assert xs[0] !in xs[1..];
        DistinctAppend([xs[0]], Filter(xs[1..], keep));
      }
    }
  }

  /** `filteredTemplates`. */
  function FilteredTemplates(templates: seq<Template>, f: Filters, order: SortBy): seq<Template> {
    SortTemplates(Filter(templates, t => Matches(t, f)), order)
  }

  /**
   * The listing holds exactly the matching entries of a duplicate-free catalogue, each once, as a
   * reordering of the filtered catalogue, largest sort key first.
   */
  lemma ListingIsSortedSelection(templates: seq<Template>, f: Filters, order: SortBy)
    requires Distinct(templates)
    ensures forall t :: t in FilteredTemplates(templates, f, order) <==> t in templates && Matches(t, f)
    ensures multiset(FilteredTemplates(templates, f, order)) == multiset(Filter(templates, t => Matches(t, f)))
    ensures Distinct(FilteredTemplates(templates, f, order))
    ensures SortedBy(FilteredTemplates(templates, f, order), order)
  {
    var kept := Filter(templates, t => Matches(t, f));
    var r := FilteredTemplates(templates, f, order);
    forall t ensures t in r <==> t in kept {
      assert t in r <==> t in multiset(r);
      assert t in kept <==> t in multiset(kept);
    }
    FilterDistinct(templates, t => Matches(t, f));
    PermutationDistinct(kept, r);
    SortSorted(kept, order);
  }

  /** Sorting the catalogue by newest lists ids strictly decreasing. */
  lemma NewestStrictlyDecreasing(f: Filters)
    ensures var r := FilteredTemplates(Templates(), f, Newest);
      forall i, j :: 0 <= i < j < |r| ==> r[i].id > r[j].id
  {
    var r := FilteredTemplates(Templates(), f, Newest);
    CatalogueIdsDistinct();
    ListingIsSortedSelection(Templates(), f, Newest);
    forall i, j | 0 <= i < j < |r| ensures r[i].id > r[j].id {
      assert r[i] in r && r[j] in r;
      assert r[i] != r[j];
    }
  }

  /** An empty search and `'all'` everywhere list the whole catalogue. */
  lemma NoFilterListsEverything(templates: seq<Template>, order: SortBy)
    ensures multiset(FilteredTemplates(templates, Filters("", All, All, All), order)) == multiset(templates)
  {
    var f := Filters("", All, All, All);
    forall t | t in templates ensures Matches(t, f) {
      ContainsEmpty(ToLower(t.title));
    }
    FilterKeepsAll(templates, t => Matches(t, f));
  }

  lemma {:induction false} FilterKeepsAll(xs: seq<Template>, keep: Template -> bool)
    requires forall x :: x in xs ==> keep(x)
    ensures Filter(xs, keep) == xs
  {
    if xs != [] {
      FilterKeepsAll(xs[1..], keep);
      assert xs == [xs[0]] + xs[1..];
    }
  }

  /** The search ignores ASCII case: an upper-cased term finds the same templates. */
  lemma SearchIgnoresCase(t: Template, term: string)
    ensures SearchMatches(t, ToUpper(term)) == SearchMatches(t, term)
  {
    assert ToLower(ToUpper(term)) == ToLower(term);
  }

  /** `getButtonText`. */
  function ButtonText(price: Price, isLoading: bool): string {
    if isLoading then (if price == Free then "Loading Template..." else "Loading Details...")
    else if price == Free then "Use Template" else "View Details"
  }

  /** The label tells loading state and price apart: the four labels differ. */
  lemma ButtonTextInjective(p1: Price, l1: bool, p2: Price, l2: bool)
    requires ButtonText(p1, l1) == ButtonText(p2, l2)
    ensures p1 == p2 && l1 == l2
  {
  }

  const GeneratorPrefix := "/generator?templateId="
  const PremiumFlag := "premium=true"

  /** The generator address a click navigates to; `encode` is `encodeURIComponent`. */
  function GeneratorUrl(t: Template, encode: string -> string): string {
    GeneratorPrefix + NatToString(t.id) + "&title=" + encode(t.title) + (if t.price == Premium then "&" + PremiumFlag else "")
  }

  /** Reads `templateId` back out of a generator address. */
  function QueryTemplateId(url: string): Option<nat> {
    if |url| < |GeneratorPrefix| || url[..|GeneratorPrefix|] != GeneratorPrefix then None
    else
      var rest := url[|GeneratorPrefix|..];
      var digits := rest[..IndexOf(rest, '&')];
      if digits != [] && AllDigits(digits) then Some(ParseNat(digits)) else None
  }

  /** The address carries the template's id. */
  lemma UrlCarriesId(t: Template, encode: string -> string)
    ensures QueryTemplateId(GeneratorUrl(t, encode)) == Some(t.id)
  {
    var url := GeneratorUrl(t, encode);
    var d := NatToString(t.id);
    var tail := "title=" + encode(t.title) + (if t.price == Premium then "&" + PremiumFlag else "");
    assert url == GeneratorPrefix + (d + ['&'] + tail);
    var rest := url[|GeneratorPrefix|..];
    assert rest == d + ['&'] + tail;
    assert '&' !in d by {
      forall i | 0 <= i < |d| ensures d[i] != '&' {
        assert IsDigit(d[i]);
      }
    }
    IndexOfAfter(d, '&', tail);
    assert rest[..|d|] == d;
    ParseNatToString(t.id);
  }

  /**
   * The last query parameter is `premium=true` exactly for a Premium template, given that
   * `encodeURIComponent` never leaves an `&` in its output.
   */
  lemma UrlPremiumFlag(t: Template, encode: string -> string)
    requires forall s :: '&' !in encode(s)
    ensures AfterLast(GeneratorUrl(t, encode), '&') == PremiumFlag <==> t.price == Premium
  {
    var head := GeneratorPrefix + NatToString(t.id);
    var title := "title=" + encode(t.title);
    assert '&' !in title by {
      assert '&' !in encode(t.title);
      forall i | 0 <= i < |title| ensures title[i] != '&' {
        if i >= 6 {
          assert title[i] == encode(t.title)[i - 6];
        }
      }
    }
    if t.price == Premium {
      assert GeneratorUrl(t, encode) == (head + "&" + title) + ['&'] + PremiumFlag;
      AfterLastOf(head + "&" + title, '&', PremiumFlag);
    } else {
      assert GeneratorUrl(t, encode) == head + ['&'] + title;
      AfterLastOf(head, '&', title);
      assert title[0] != PremiumFlag[0];
    }
  }

  /** The page's own state: the ids shown as loading and the addresses pushed to the router. */
  class MarketplacePage {
    var loadingTemplates: set<nat>
    var navigations: seq<string>

    constructor ()
      ensures loadingTemplates == {} && navigations == []
    {
      loadingTemplates := {};
      navigations := [];
    }

    /** The label of a template's button on this page. */
    function Label(t: Template): (s: string)
      reads this
      ensures t.id in loadingTemplates ==> s == ButtonText(t.price, true)
      ensures t.id !in loadingTemplates ==> s == ButtonText(t.price, false)
    {
      ButtonText(t.price, t.id in loadingTemplates)
    }

    /**
     * `handleTemplateClick`: marks the template as loading, then navigates; when navigation
     * throws, that one id is taken out of the loading set again and nothing is pushed.
     */
    method HandleTemplateClick(t: Template, encode: string -> string, navigationFails: bool)
      modifies this
      ensures !navigationFails ==>
        loadingTemplates == old(loadingTemplates) + {t.id} && navigations == old(navigations) + [GeneratorUrl(t, encode)]
      ensures navigationFails ==>
        loadingTemplates == old(loadingTemplates) - {t.id} && navigations == old(navigations)
    {
      loadingTemplates := loadingTemplates + {t.id};
      if navigationFails {
        loadingTemplates := loadingTemplates - {t.id};
      } else {
        navigations := navigations + [GeneratorUrl(t, encode)];
      }
    }
  }

  /** After a click the other templates' loading state is what it was. */
  lemma ClickTouchesOneId(before: set<nat>, after: set<nat>, id: nat, other: nat)
    requires after == before + {id} || after == before - {id}
    requires other != id
    ensures other in after <==> other in before
  {
  }
}

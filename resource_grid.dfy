/** The list rules of components/ResourceGrid.tsx: which items a grade tab
    shows, which address a click opens, and whether a card shows its thumbnail. */
module ResourceGrid {
  import opened Text
  import opened Optional
  import opened Types

  /** The tab that shows every item. */
  const AllTab := "all"
  const HttpScheme := "http://"
  const HttpsScheme := "https://"

  /** The grade filter: the item has a grade and, trimmed, it equals the active tab. */
  predicate InGrade(item: ResourceItem, tab: string) {
    item.grade.Some? && item.grade.value != "" && Trim(item.grade.value) == tab
  }

  /** The items of the given grade, in their original order. */
  function GradeFilter(items: seq<ResourceItem>, tab: string): seq<ResourceItem> {
    if items == [] then []
    else (if InGrade(items[0], tab) then [items[0]] else []) + GradeFilter(items[1..], tab)
  }

  /** `filteredItems` for `activeTab`. */
  function FilterByGrade(items: seq<ResourceItem>, tab: string): (shown: seq<ResourceItem>)
    ensures tab == AllTab ==> shown == items
    ensures |shown| <= |items|
  {
    if tab == AllTab then items
    else
      GradeFilterShape(items, tab);
      GradeFilter(items, tab)
  }

  /** `a` is `b` with some elements left out, the rest in their order. */
  predicate IsSubsequence(a: seq<ResourceItem>, b: seq<ResourceItem>)
    decreases |b|
  {
    if a == [] then true
    else if b == [] then false
    else (a[0] == b[0] && IsSubsequence(a[1..], b[1..])) || IsSubsequence(a, b[1..])
  }

  lemma {:induction false} GradeFilterShape(items: seq<ResourceItem>, tab: string)
    ensures |GradeFilter(items, tab)| <= |items|
  {
    if items != [] {
      GradeFilterShape(items[1..], tab);
    }
  }

  /** What the filter keeps stays in its original order. */
  lemma {:induction false} GradeFilterOrder(items: seq<ResourceItem>, tab: string)
    ensures IsSubsequence(GradeFilter(items, tab), items)
  {
    if items != [] {
      GradeFilterOrder(items[1..], tab);
      var rest := GradeFilter(items[1..], tab);
      if InGrade(items[0], tab) {
        assert ([items[0]] + rest)[1..] == rest;
      } else {
        assert GradeFilter(items, tab) == rest;
      }
    }
  }

  /** The filter keeps an item exactly as often as the list holds it when it
      is of the grade, and drops it otherwise. */
  lemma {:induction false} GradeFilterCounts(items: seq<ResourceItem>, tab: string)
    ensures forall x :: multiset(GradeFilter(items, tab))[x] == if InGrade(x, tab) then multiset(items)[x] else 0
  {
    if items != [] {
      GradeFilterCounts(items[1..], tab);
      assert items == [items[0]] + items[1..];
    }
  }

  /** With a grade tab, an item is shown exactly when it is in the list and
      its trimmed grade is the tab. */
  lemma FilterByGradeMembers(items: seq<ResourceItem>, tab: string)
    requires tab != AllTab
    ensures forall x :: x in FilterByGrade(items, tab) <==> x in items && InGrade(x, tab)
    ensures IsSubsequence(FilterByGrade(items, tab), items)
  {
    GradeFilterOrder(items, tab);
    GradeFilterCounts(items, tab);
    forall x
      ensures x in FilterByGrade(items, tab) <==> x in items && InGrade(x, tab)
    {
      assert x in FilterByGrade(items, tab) <==> multiset(FilterByGrade(items, tab))[x] > 0;
      assert x in items <==> multiset(items)[x] > 0;
    }
  }

  /** The scheme test of the click handler: the address begins with `http://` or `https://` in any
      letter case. */
  predicate HasHttpScheme(url: string) {
    (|url| >= |HttpScheme| && ToLower(url[..|HttpScheme|]) == HttpScheme)
    || (|url| >= |HttpsScheme| && ToLower(url[..|HttpsScheme|]) == HttpsScheme)
  }

  /** The address `handleItemClick` opens, or None when the link is empty or `'#'`. */
  function OpenLink(linkUrl: string): (url: Option<string>)
    ensures url.None? <==> linkUrl == "" || linkUrl == "#"
    ensures url.Some? ==> HasHttpScheme(url.value)
    ensures url.Some? ==> url.value == Trim(linkUrl) || url.value == HttpsScheme + Trim(linkUrl)
    ensures url.Some? && HasHttpScheme(Trim(linkUrl)) ==> url.value == Trim(linkUrl)
  {
    if linkUrl == "" || linkUrl == "#" then None
    else
      var url := Trim(linkUrl);
      if HasHttpScheme(url) then Some(url)
      else
        assert (HttpsScheme + url)[..|HttpsScheme|] == HttpsScheme;
        Some(HttpsScheme + url)
  }

  /** Opening the opened address again opens the same address. */
  lemma OpenLinkIdempotent(linkUrl: string)
    requires OpenLink(linkUrl).Some?
    ensures OpenLink(OpenLink(linkUrl).value) == OpenLink(linkUrl)
  {
    var t := Trim(linkUrl);
    var u := OpenLink(linkUrl).value;
    TrimEnds(linkUrl);
    if u == t {
      TrimOfTrimmed(t);
    } else {
      TrimOfPrefixed(HttpsScheme, t);
    }
  }

  /** `hasUrl`: the thumbnail is present and not blank once trimmed. */
  predicate HasThumbnail(item: ResourceItem) {
    item.thumbnailUrl.Some? && item.thumbnailUrl.value != "" && Trim(item.thumbnailUrl.value) != ""
  }

  /** A thumbnail is drawn exactly when its address has a character that is
      not whitespace. */
  lemma HasThumbnailIff(item: ResourceItem)
    ensures HasThumbnail(item) <==> item.thumbnailUrl.Some? && !AllWhitespace(item.thumbnailUrl.value)
  {
    if item.thumbnailUrl.Some? {
      TrimEmpty(item.thumbnailUrl.value);
    }
  }
}

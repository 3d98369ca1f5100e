/**
  The search box and category select above the catalogue: each edit rewrites the `search` and
  `categoryId` parameters from the local field values and navigates.
 */
module ProductFilters {
  import opened Wrappers
  import opened Text
  import opened QueryParams

  /** `basePath || pathname`. */
  function CurrentPath(basePath: string, pathname: string): (r: string)
    ensures basePath != "" ==> r == basePath
    ensures basePath == "" ==> r == pathname
  {
    if basePath != "" then basePath else pathname
  }

  /** `setOrDelete(key, value)`: store the trimmed value when it is not blank, else remove the key. */
  function SetOrDeleteSpec(ps: seq<Pair>, key: string, value: Option<string>): seq<Pair> {
    var v := Trim(value.GetOr(""));
    if v != "" then SetSpec(ps, key, v) else Deleted(ps, key)
  }

  /** `apply(next)`: `search` first, then `categoryId`. */
  function ApplySpec(ps: seq<Pair>, search: Option<string>, categoryId: Option<string>): seq<Pair> {
    SetOrDeleteSpec(SetOrDeleteSpec(ps, "search", search), "categoryId", categoryId)
  }

  method SetOrDelete(params: SearchParams, key: string, value: Option<string>)
    modifies params
    ensures params.pairs == SetOrDeleteSpec(old(params.pairs), key, value)
  {
    var v := Trim(value.GetOr(""));
    if v != "" {
      params.Set(key, v);
    } else {
      params.Delete(key);
    }
  }

  method Apply(current: seq<Pair>, currentPath: string, search: Option<string>, categoryId: Option<string>)
    returns (next: seq<Pair>, target: string)
    ensures next == ApplySpec(current, search, categoryId)
    ensures target == Target(currentPath, next)
  {
    var params := new SearchParams(current);
    SetOrDelete(params, "search", search);
    SetOrDelete(params, "categoryId", categoryId);
    var qs := params.ToString();
    target := if qs != "" then currentPath + "?" + qs else currentPath;
    next := params.pairs;
  }

  /** What one `setOrDelete` leaves: the key holds exactly the trimmed value, or nothing when it
      is blank, and every other key keeps its pairs in order. */
  lemma SetOrDeleteEffect(ps: seq<Pair>, key: string, value: Option<string>, other: string)
    ensures var v := Trim(value.GetOr(""));
            && Lookup(SetOrDeleteSpec(ps, key, value), key) == (if v != "" then Some(v) else None)
            && (other != key ==> Only(SetOrDeleteSpec(ps, key, value), other) == Only(ps, other))
  {
    var v := Trim(value.GetOr(""));
    LookupAfterEdits(ps, key, v, other);
    OnlyAfterSet(ps, key, v, other);
    OnlyAfterDelete(ps, key, other);
  }

  /** `apply` sets both keys from their trimmed values and leaves every other parameter alone;
      "Clear filters" removes both keys. */
  lemma ApplyEffect(ps: seq<Pair>, search: Option<string>, categoryId: Option<string>, other: string)
    ensures var r := ApplySpec(ps, search, categoryId);
            var s, c := Trim(search.GetOr("")), Trim(categoryId.GetOr(""));
            && Lookup(r, "search") == (if s != "" then Some(s) else None)
            && Lookup(r, "categoryId") == (if c != "" then Some(c) else None)
            && (other != "search" && other != "categoryId" ==> Only(r, other) == Only(ps, other))
    ensures var cleared := ApplySpec(ps, Some(""), Some(""));
            Lookup(cleared, "search") == None && Lookup(cleared, "categoryId") == None
  {
    var mid := SetOrDeleteSpec(ps, "search", search);
    SetOrDeleteEffect(ps, "search", search, other);
    SetOrDeleteEffect(ps, "search", search, "categoryId");
    SetOrDeleteEffect(mid, "categoryId", categoryId, other);
    SetOrDeleteEffect(mid, "categoryId", categoryId, "search");
    var mid' := SetOrDeleteSpec(ps, "search", Some(""));
    SetOrDeleteEffect(ps, "search", Some(""), "categoryId");
    SetOrDeleteEffect(mid', "categoryId", Some(""), "search");
  }

  /** Applying blank fields deletes both keys. */
  lemma ClearedIsDeleted(ps: seq<Pair>, blank: string)
    requires blank == ""
    ensures ApplySpec(ps, Some(blank), Some(blank)) == Deleted(Deleted(ps, "search"), "categoryId")
  {
    assert AllSpace(blank);
  }

  /** `apply` with both fields blank. */
  method ApplyCleared(current: seq<Pair>, currentPath: string) returns (next: seq<Pair>, target: string)
    ensures next == Deleted(Deleted(current, "search"), "categoryId")
    ensures target == Target(currentPath, next)
  {
    var blank := "";
    next, target := Apply(current, currentPath, Some(blank), Some(blank));
    ClearedIsDeleted(current, blank);
  }

  /** The search box and category select with their local values, and the URL's query. */
  class FilterBar {
    const currentPath: string
    var url: seq<Pair>
    var search: string
    var categoryId: string

    constructor (basePath: string, pathname: string, url: seq<Pair>)
      ensures currentPath == CurrentPath(basePath, pathname) && this.url == url
      ensures search == Lookup(url, "search").GetOr("") && categoryId == Lookup(url, "categoryId").GetOr("")
    {
      currentPath := CurrentPath(basePath, pathname);
      this.url := url;
      search := Lookup(url, "search").GetOr("");
      categoryId := Lookup(url, "categoryId").GetOr("");
    }

    /** Typing in the search box: the field takes the text, and the query is rewritten from it
        and the current category. */
    method OnSearchInput(v: string) returns (next: seq<Pair>, target: string)
      modifies this
      ensures search == v && categoryId == old(categoryId) && url == old(url)
      ensures next == ApplySpec(url, Some(v), Some(categoryId)) && target == Target(currentPath, next)
    {
      search := v;
      next, target := Apply(url, currentPath, Some(v), Some(categoryId));
    }

    /** Choosing a category. */
    method OnCategoryChange(v: string) returns (next: seq<Pair>, target: string)
      modifies this
      ensures categoryId == v && search == old(search) && url == old(url)
      ensures next == ApplySpec(url, Some(search), Some(v)) && target == Target(currentPath, next)
    {
      categoryId := v;
      next, target := Apply(url, currentPath, Some(search), Some(v));
    }

    /** "Clear filters". */
    method ClearFilters() returns (next: seq<Pair>, target: string)
      modifies this
      ensures search == "" && categoryId == "" && url == old(url)
      ensures next == Deleted(Deleted(url, "search"), "categoryId") && target == Target(currentPath, next)
    {
      search, categoryId := "", "";
      next, target := ApplyCleared(url, currentPath);
    }

    /** The URL changed: a field is reset to the URL's value only when that value changed. */
    method Navigated(newUrl: seq<Pair>)
      modifies this
      ensures url == newUrl
      ensures Lookup(newUrl, "search").GetOr("") != Lookup(old(url), "search").GetOr("") ==>
                search == Lookup(newUrl, "search").GetOr("")
      ensures Lookup(newUrl, "search").GetOr("") == Lookup(old(url), "search").GetOr("") ==> search == old(search)
      ensures Lookup(newUrl, "categoryId").GetOr("") != Lookup(old(url), "categoryId").GetOr("") ==>
                categoryId == Lookup(newUrl, "categoryId").GetOr("")
      ensures Lookup(newUrl, "categoryId").GetOr("") == Lookup(old(url), "categoryId").GetOr("") ==> categoryId == old(categoryId)
    {
      var s := Lookup(newUrl, "search").GetOr("");
      if s != Lookup(url, "search").GetOr("") {
        search := s;
      }
      var c := Lookup(newUrl, "categoryId").GetOr("");
      if c != Lookup(url, "categoryId").GetOr("") {
        categoryId := c;
      }
      url := newUrl;
    }
  }

  /** Text without surrounding blanks survives the round trip through the URL: after typing it
      and navigating to the resulting query, the box still holds exactly that text. */
  lemma TypedSearchSurvivesNavigation(url: seq<Pair>, typed: string, categoryId: string)
    requires Trim(typed) == typed
    ensures var next := ApplySpec(url, Some(typed), Some(categoryId));
            var s := Lookup(next, "search").GetOr("");
            (if s != Lookup(url, "search").GetOr("") then s else typed) == typed
  {
    var next := ApplySpec(url, Some(typed), Some(categoryId));
    ApplyEffect(url, Some(typed), Some(categoryId), "search");
    assert Lookup(next, "search") == (if typed != "" then Some(typed) else None);
  }
}

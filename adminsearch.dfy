/** The admin search box of `components/admin/admin-search.tsx`: where the
    form submits, and the text the box holds. */
module AdminSearch {
  import opened Common
  import AuthConfig

  /** `formActionUrl`: orders first, then users, products otherwise. */
  function FormActionUrl(pathName: string): (r: string)
    ensures r in {"/admin/orders", "/admin/users", "/admin/products"}
    ensures Contains(pathName, "/admin/orders") ==> r == "/admin/orders"
    ensures !Contains(pathName, "/admin/orders") && Contains(pathName, "/admin/users") ==> r == "/admin/users"
    ensures !Contains(pathName, "/admin/orders") && !Contains(pathName, "/admin/users") ==> r == "/admin/products"
  {
    if Contains(pathName, "/admin/orders") then "/admin/orders"
    else if Contains(pathName, "/admin/users") then "/admin/users"
    else "/admin/products"
  }

  /** Every place the search submits to is a protected path. */
  lemma FormActionIsProtected(pathName: string)
    ensures AuthConfig.IsProtected(FormActionUrl(pathName))
  {
    var r := FormActionUrl(pathName);
    assert StartsWith(r, "/admin") by {
      if r == "/admin/orders" { assert r[..6] == "/admin"; }
      else if r == "/admin/users" { assert r[..6] == "/admin"; }
      else { assert r[..6] == "/admin"; }
    }
    AuthConfig.AdminAnywhereIsProtected(r);
  }

  /** `searchParams.get('query') || ''`; `params` maps each key to its
      first value. */
  function InitialQuery(params: map<string, string>): (q: string)
    ensures "query" in params ==> q == params["query"]
    ensures "query" !in params ==> q == ""
  {
    if "query" in params then params["query"] else ""
  }

  /** The search box's state: what the input shows. */
  class SearchBox {
    var queryValue: string

    constructor (params: map<string, string>)
      ensures queryValue == InitialQuery(params)
    {
      queryValue := InitialQuery(params);
    }

    /** Typing replaces the text. */
    method OnChange(text: string)
      modifies this
      ensures queryValue == text
    {
      queryValue := text;
    }

    /** A change of the URL's parameters resyncs the text with them. */
    method OnParamsChange(params: map<string, string>)
      modifies this
      ensures queryValue == InitialQuery(params)
    {
      queryValue := InitialQuery(params);
    }
  }
}

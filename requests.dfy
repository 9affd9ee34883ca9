/** Argument resolution of the public operations: each operation tests the
    runtime types of its loosely typed arguments, rewrites them into an
    `(action, idOrQuery)` pair and hands that pair to `getUrl`. */
module Requests {
  import opened Url

  /** One public call with the arguments as given. Parameters declared `any`
      are `Arg`s, optional parameters declared `string` are `Option<string>`,
      those declared `number` are `Option<int>`. Request bodies (`model`,
      `form`) do not reach the URL and are not carried. */
  datatype Call =
    | Get(action: Arg, idOrQuery: Arg)
    | GetPage(action: Arg, page: Option<int>, perPage: Option<int>)
    | GetQueryPage(action: Arg, query: Arg, page: Option<int>, perPage: Option<int>)
    | Post(actionName: Option<string>)
    | Put(idOrQuery: Arg, actionName: Option<string>)
    | Delete(idOrQuery: Arg, actionName: Option<string>)
    | Upload(idOrQuery: Arg, actionName: Option<string>)
    | Download(idOrQuery: Arg, actionName: Option<string>)

  /** The pair an operation passes to `getUrl`. */
  datatype Target = Target(action: Arg, idOrQuery: Arg)

  function OptionalAction(name: Option<string>): Arg
  {
    match name
    case None => Undefined
    case Some(s) => Str(s)
  }

  /** `delete`, `upload` and `download`: a string in the identifier slot is
      the action, the identifier is cleared and the explicit action dropped. */
  function StringIdAsAction(idOrQuery: Arg, name: Option<string>): (t: Target)
    ensures !t.idOrQuery.Str?
    ensures idOrQuery.Str? ==> t.action == idOrQuery && t.idOrQuery.Null?
    ensures !idOrQuery.Str? ==> t.idOrQuery == idOrQuery && t.action == OptionalAction(name)
  {
    if idOrQuery.Str? then Target(idOrQuery, Null) else Target(OptionalAction(name), idOrQuery)
  }

  /** `getPage(action = 'page', page = 0, per_page = 10)`. */
  function ResolvePage(action: Arg, page: Option<int>, perPage: Option<int>): (t: Target)
    ensures t.action.Str? && t.idOrQuery == Num(GetOr(perPage, 10))
    ensures action.Num? ==> t.action == Str("page/" + IntToString(action.n))
  {
    var act := if action.Undefined? then Str("page") else action;
    var pg := if act.Num? then act.n else GetOr(page, 0);
    var name := if act.Num? then "page" else Text(act);
    Target(Str(name + "/" + IntToString(pg)), Num(GetOr(perPage, 10)))
  }

  /** `getQueryPage(action = 'page-query', query = {}, page = 0, perPage = 10)`.
      A numeric `query` is the page, and `perPage` is then taken from `page`
      (or 10); afterwards an object action (`typeof` gives `'object'` for
      `null` too) becomes the query. */
  function ResolveQueryPage(action: Arg, query: Arg, page: Option<int>, perPage: Option<int>): (t: Target)
    ensures t.action.Str? && !t.idOrQuery.Num? && !t.idOrQuery.Undefined?
    ensures (action.Obj? || action.Null?) ==> t.idOrQuery == action
  {
    var act := if action.Undefined? then Str("page-query") else action;
    var q := if query.Undefined? then Obj([]) else query;
    var pg := GetOr(page, 0);
    var pp := GetOr(perPage, 10);
    var pp1 := if q.Num? then (if pg > 0 then pg else 10) else pp;
    var pg1 := if q.Num? then q.n else pg;
    var q1 := if q.Num? then Obj([]) else q;
    var isObject := act.Obj? || act.Null?;
    var q2 := if isObject then act else q1;
    var act2 := if isObject then Str("page-query") else act;
    Target(Str(Text(act2) + "/" + IntToString(pg1) + "/" + IntToString(pp1)), q2)
  }

  function Resolve(call: Call): (t: Target)
    ensures call.GetPage? ==> t.action.Str? && t.idOrQuery.Num?
    ensures call.GetQueryPage? ==> t.action.Str? && !t.idOrQuery.Num? && !t.idOrQuery.Undefined?
    ensures call.Post? ==> t.idOrQuery.Undefined?
    ensures (call.Delete? || call.Upload? || call.Download?) ==> !t.idOrQuery.Str?
    ensures call.Get? ==> t == Target(call.action, call.idOrQuery)
    ensures call.Put? ==> t == Target(OptionalAction(call.actionName), call.idOrQuery)
  {
    match call
    case Get(a, x) => Target(a, x)
    case GetPage(a, pg, pp) => ResolvePage(a, pg, pp)
    case GetQueryPage(a, q, pg, pp) => ResolveQueryPage(a, q, pg, pp)
    case Post(name) => Target(OptionalAction(name), Undefined)
    case Put(x, name) => Target(OptionalAction(name), x)
    case Delete(x, name) => StringIdAsAction(x, name)
    case Upload(x, name) => StringIdAsAction(x, name)
    case Download(x, name) => StringIdAsAction(x, name)
  }

  /** The URL the operation sends its request to. */
  function RequestUrl(cfg: Config, call: Call): (r: string)
  {
    var t := Resolve(call);
    GetUrl(cfg, t.action, t.idOrQuery)
  }

  /** `getQueryPage` always sends a query string, possibly a bare `?`,
      unless `null` is passed as its action or its query. */
  lemma QueryPageSendsQuery(cfg: Config, action: Arg, query: Arg, page: Option<int>, perPage: Option<int>)
    requires !action.Null? && !query.Null?
    ensures '?' in RequestUrl(cfg, GetQueryPage(action, query, page, perPage))[|Prefix(cfg)|..]
  {
    var t := Resolve(GetQueryPage(action, query, page, perPage));
    var url := RequestUrl(cfg, GetQueryPage(action, query, page, perPage));
    var seg := ActionSegment(t.action);
    assert url[|Prefix(cfg)|..] == seg + ParamSegment(t.idOrQuery);
    assert (seg + ParamSegment(t.idOrQuery))[|seg|] == '?';
  }

  /** `getQueryPage(null)` sends no query at all. */
  lemma QueryPageNullAction(cfg: Config, query: Arg, page: Option<int>, perPage: Option<int>)
    ensures '?' !in Prefix(cfg) ==> '?' !in RequestUrl(cfg, GetQueryPage(Null, query, page, perPage))
  {
    var t := Resolve(GetQueryPage(Null, query, page, perPage));
    var pg := if query.Num? then query.n else GetOr(page, 0);
    var pp := if query.Num? then (if GetOr(page, 0) > 0 then GetOr(page, 0) else 10) else GetOr(perPage, 10);
    var path := "page-query" + "/" + IntToString(pg) + "/" + IntToString(pp);
    assert t == Target(Str(path), Null);
    assert '?' !in path by {
      NoQueryInNumber(pg);
      NoQueryInNumber(pp);
    }
    assert ActionSegment(t.action) + ParamSegment(t.idOrQuery) == "/" + path;
  }


  // ---------------------------------------------------------------------
  // get
  // ---------------------------------------------------------------------

  /** `get(n)` reaches the same URL as `get('', n)`: a numeric action is
      written behind a slash just as a numeric identifier is. */
  lemma GetNumericAction(cfg: Config, n: int)
    ensures RequestUrl(cfg, Get(Num(n), Undefined)) == RequestUrl(cfg, Get(Str(""), Num(n)))
    ensures RequestUrl(cfg, Get(Num(n), Undefined)) == Prefix(cfg) + ("/" + IntToString(n))
  {
    assert ActionSegment(Num(n)) + ParamSegment(Undefined) == "/" + IntToString(n);
    assert ActionSegment(Str("")) + ParamSegment(Num(n)) == "/" + IntToString(n);
  }

  /** `get` does no reinterpretation: a string identifier is read as a query. */
  lemma GetStringIdIsQuery(cfg: Config)
    ensures RequestUrl(cfg, Get(Undefined, Str("ab"))) == Prefix(cfg) + "?0=a&1=b"
  {
    StringQueryUrl(cfg);
  }

  // ---------------------------------------------------------------------
  // getPage
  // ---------------------------------------------------------------------

  /** With a named action, the path is `<action>/<page>` and `per_page` is
      always appended as a path-style identifier. */
  lemma GetPageUrl(cfg: Config, name: string, page: Option<int>, perPage: Option<int>)
    ensures RequestUrl(cfg, GetPage(Str(name), page, perPage))
         == Prefix(cfg) + ("/" + (name + "/" + IntToString(GetOr(page, 0))) + "/" + IntToString(GetOr(perPage, 10)))
    ensures RequestUrl(cfg, GetPage(Undefined, page, perPage)) == RequestUrl(cfg, GetPage(Str("page"), page, perPage))
  {
    var path := name + "/" + IntToString(GetOr(page, 0));
    var id := IntToString(GetOr(perPage, 10));
    assert Resolve(GetPage(Str(name), page, perPage)) == Target(Str(path), Num(GetOr(perPage, 10)));
    assert Slashed(path) == "/" + path;
    NumericIdUrl(cfg, path, GetOr(perPage, 10));
  }

  /** A numeric first argument is the page (whatever the second argument
      says) and the action becomes `page`. */
  lemma GetPageNumberOverride(cfg: Config, n: int, page: Option<int>, perPage: Option<int>)
    ensures RequestUrl(cfg, GetPage(Num(n), page, perPage)) == RequestUrl(cfg, GetPage(Str("page"), Some(n), perPage))
  {
  }

  /** `getPage()`. */
  lemma GetPageNoArguments(cfg: Config)
    ensures RequestUrl(cfg, GetPage(Undefined, None, None)) == Prefix(cfg) + "/page/0/10"
  {
    var t := Resolve(GetPage(Undefined, None, None));
    assert t == Target(Str("page/0"), Num(10)) by {
      assert IntToString(0) == "0";
      assert t.action == Str("page" + "/" + IntToString(0));
    }
    assert ActionSegment(Str("page/0")) + ParamSegment(Num(10)) == "/page/0/10" by {
      assert IntToString(10) == "10";
    }
  }

  /** `getPage(3)`. */
  lemma GetPageNumberOnly(cfg: Config)
    ensures RequestUrl(cfg, GetPage(Num(3), None, None)) == Prefix(cfg) + "/page/3/10"
  {
    var t := Resolve(GetPage(Num(3), None, None));
    assert t == Target(Str("page/3"), Num(10)) by {
      assert IntToString(3) == "3";
      assert t.action == Str("page" + "/" + IntToString(3));
    }
    assert ActionSegment(Str("page/3")) + ParamSegment(Num(10)) == "/page/3/10" by {
      assert IntToString(10) == "10";
    }
  }

  // ---------------------------------------------------------------------
  // getQueryPage
  // ---------------------------------------------------------------------

  /** With a named action and a query object, the path is
      `<action>/<page>/<perPage>` followed by the query; an absent query is
      `{}` and leaves a bare `?`. */
  lemma GetQueryPageUrl(cfg: Config, name: string, o: Query, page: Option<int>, perPage: Option<int>)
    ensures RequestUrl(cfg, GetQueryPage(Str(name), Obj(o), page, perPage))
         == Prefix(cfg) + ("/" + (name + "/" + IntToString(GetOr(page, 0)) + "/" + IntToString(GetOr(perPage, 10)))
                           + "?" + JoinPairs(o))
    ensures RequestUrl(cfg, GetQueryPage(Str(name), Undefined, page, perPage))
         == RequestUrl(cfg, GetQueryPage(Str(name), Obj([]), page, perPage))
  {
    var d1, d2 := IntToString(GetOr(page, 0)), IntToString(GetOr(perPage, 10));
    var path := name + "/" + d1 + "/" + d2;
    assert Resolve(GetQueryPage(Str(name), Obj(o), page, perPage)) == Target(Str(path), Obj(o));
    assert Slashed(path) == "/" + path;
    QueryUrl(cfg, path, o);
    assert Resolve(GetQueryPage(Str(name), Undefined, page, perPage))
        == Resolve(GetQueryPage(Str(name), Obj([]), page, perPage));
  }

  /** A numeric query is the page; the original `perPage` is discarded and
      replaced by `page` when positive, else 10; the query becomes `{}`. */
  lemma GetQueryPageNumericQuery(cfg: Config, action: Arg, m: int, page: Option<int>, perPage: Option<int>)
    ensures RequestUrl(cfg, GetQueryPage(action, Num(m), page, perPage))
         == RequestUrl(cfg, GetQueryPage(action, Obj([]), Some(m),
                                         Some(if GetOr(page, 0) > 0 then GetOr(page, 0) else 10)))
  {
    assert Resolve(GetQueryPage(action, Num(m), page, perPage))
        == Resolve(GetQueryPage(action, Obj([]), Some(m), Some(if GetOr(page, 0) > 0 then GetOr(page, 0) else 10)));
  }

  /** An object action replaces a non-numeric query, and the action becomes
      `page-query`. */
  lemma GetQueryPageObjectAction(cfg: Config, o: Query, query: Arg, page: Option<int>, perPage: Option<int>)
    requires !query.Num?
    ensures RequestUrl(cfg, GetQueryPage(Obj(o), query, page, perPage))
         == RequestUrl(cfg, GetQueryPage(Str("page-query"), Obj(o), page, perPage))
  {
  }

  /** Unlike `getPage`, `getQueryPage` has no numeric branch for its action:
      `getQueryPage(5)` takes 5 as the action text, not as the page. */
  lemma GetQueryPageNumberAction(cfg: Config)
    ensures RequestUrl(cfg, GetQueryPage(Num(5), Undefined, None, None)) == Prefix(cfg) + "/5/0/10?"
  {
    assert "5" + "/" + "0" + "/" + "10" == "5/0/10";
    assert "/" + "5/0/10" + "?" == "/5/0/10?";
    assert Resolve(GetQueryPage(Num(5), Undefined, None, None)) == Target(Str("5/0/10"), Obj([])) by {
      assert IntToString(5) == "5" && IntToString(0) == "0" && IntToString(10) == "10";
    }
    assert ActionSegment(Str("5/0/10")) + ParamSegment(Obj([])) == "/5/0/10?";
  }

  /** `getQueryPage({status: 'open'}, 2, 5)`. */
  lemma GetQueryPageExample(cfg: Config)
    ensures RequestUrl(cfg, GetQueryPage(Obj([("status", "open")]), Num(2), Some(5), None))
         == Prefix(cfg) + "/page-query/2/5?status=open"
  {
    var o := [("status", "open")];
    var path := "/" + ("page-query" + "/" + IntToString(2) + "/" + IntToString(5)) + "?" + JoinPairs(o);
    assert path == "/page-query/2/5?status=open" by {
      assert "page-query" + "/" + "2" + "/" + "5" == "page-query/2/5";
      assert "/" + "page-query/2/5" == "/page-query/2/5";
      assert "/page-query/2/5" + "?" == "/page-query/2/5?";
      assert "/page-query/2/5?" + "status=open" == "/page-query/2/5?status=open";
      assert IntToString(2) == "2" && IntToString(5) == "5" && JoinPairs(o) == "status=open";
    }
    assert RequestUrl(cfg, GetQueryPage(Obj(o), Num(2), Some(5), None)) == Prefix(cfg) + path by {
      GetQueryPageNumericQuery(cfg, Obj(o), 2, Some(5), None);
      GetQueryPageObjectAction(cfg, o, Obj([]), Some(2), Some(5));
      GetQueryPageUrl(cfg, "page-query", o, Some(2), Some(5));
    }
  }

  // ---------------------------------------------------------------------
  // post, put
  // ---------------------------------------------------------------------

  /** `post` never appends an identifier or a query. */
  lemma PostUrl(cfg: Config, name: string)
    ensures RequestUrl(cfg, Post(Some(name))) == Prefix(cfg) + Slashed(name)
    ensures RequestUrl(cfg, Post(None)) == Prefix(cfg)
  {
  }

  /** `put` passes its arguments to `getUrl` unchanged: an identifier or a
      query ends up behind the action just as `getUrl` renders it. */
  lemma PutPassesThrough(cfg: Config, idOrQuery: Arg, name: string)
    ensures RequestUrl(cfg, Put(idOrQuery, Some(name))) == GetUrl(cfg, Str(name), idOrQuery)
    ensures RequestUrl(cfg, Put(idOrQuery, None)) == GetUrl(cfg, Str(""), idOrQuery)
  {
  }

  // ---------------------------------------------------------------------
  // delete, upload, download
  // ---------------------------------------------------------------------

  /** A string identifier becomes the action: the URL is the prefix and that
      segment only, whatever action was passed explicitly. */
  lemma StringIdIsAction(cfg: Config, s: string, name: Option<string>)
    ensures RequestUrl(cfg, Delete(Str(s), name)) == Prefix(cfg) + Slashed(s)
    ensures RequestUrl(cfg, Upload(Str(s), name)) == Prefix(cfg) + Slashed(s)
    ensures RequestUrl(cfg, Download(Str(s), name)) == Prefix(cfg) + Slashed(s)
  {
  }

  /** Numeric, object and absent identifiers pass through unchanged, exactly
      as `put` passes them. */
  lemma NonStringIdPassesThrough(cfg: Config, idOrQuery: Arg, name: Option<string>)
    requires !idOrQuery.Str?
    ensures RequestUrl(cfg, Delete(idOrQuery, name)) == RequestUrl(cfg, Put(idOrQuery, name))
    ensures RequestUrl(cfg, Upload(idOrQuery, name)) == RequestUrl(cfg, Put(idOrQuery, name))
    ensures RequestUrl(cfg, Download(idOrQuery, name)) == RequestUrl(cfg, Put(idOrQuery, name))
  {
    var t := Resolve(Put(idOrQuery, name));
    assert Resolve(Delete(idOrQuery, name)) == t;
    assert Resolve(Upload(idOrQuery, name)) == t;
    assert Resolve(Download(idOrQuery, name)) == t;
  }

  /** `delete('archive')` and `delete(42)`, against `put` with the same
      string, which is read as a query. */
  lemma DeleteExamples(cfg: Config)
    ensures RequestUrl(cfg, Delete(Str("archive"), None)) == Prefix(cfg) + "/archive"
    ensures RequestUrl(cfg, Delete(Num(42), None)) == Prefix(cfg) + "/42"
    ensures RequestUrl(cfg, Delete(Str("ab"), Some("x"))) == Prefix(cfg) + "/ab"
    ensures RequestUrl(cfg, Put(Str("ab"), None)) == Prefix(cfg) + "?0=a&1=b"
  {
    assert Resolve(Delete(Str("archive"), None)) == Target(Str("archive"), Null);
    assert ActionSegment(Str("archive")) + ParamSegment(Null) == "/archive";
    assert Resolve(Delete(Num(42), None)) == Target(Undefined, Num(42));
    assert ActionSegment(Undefined) + ParamSegment(Num(42)) == "/42" by {
      assert IntToString(42) == "42";
    }
    assert Resolve(Delete(Str("ab"), Some("x"))) == Target(Str("ab"), Null);
    assert ActionSegment(Str("ab")) + ParamSegment(Null) == "/ab";
    assert Resolve(Put(Str("ab"), None)) == Target(Undefined, Str("ab"));
    StringQueryUrl(cfg);
  }



}

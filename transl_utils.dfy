/**
 * The path helpers of the translib bridge (transl_utils/transl_utils.go):
 * rendering a gNMI path as the URI translib is addressed with, for one
 * path and for every path of a request, and the test of a translib
 * outcome.
 *
 * The key map of an element is visited in Go's unspecified map order; the
 * rendering is stated for the visiting order the loop took, returned as a
 * ghost result, so every property holds for every order.
 */
module TranslUtils {
  import opened Wrappers
  import opened Gnmi
  import opened GoMaps
  import opened GoStrings
  import VdbPath

  /**
   * The elements ConvertToURI renders: the path's own when there is no
   * prefix, otherwise those of GnmiTranslFullPath, which builds the same
   * path as gnmiFullPath.
   */
  function RenderedElems(prefix: Option<Path>, path: Path): (r: seq<PathElem>)
    ensures prefix.None? ==> r == path.elem
    ensures prefix.Some? ==> r == VdbPath.GnmiFullPath(prefix.value, path).elem
  {
    match prefix
    case None => path.elem
    case Some(p) => if path.elem == [] then [] else p.elem + path.elem
  }

  /** Under a prefix, the rendered names are the prefix's names followed by the path's. */
  lemma RenderedNames(prefix: Path, path: Path)
    requires path.elem != []
    ensures Names(RenderedElems(Some(prefix), path)) == Names(prefix.elem) + Names(path.elem)
  {
    VdbPath.FullPathNames(prefix, path);
  }

  /** Each element's keys are visited exactly once. */
  predicate IsKeyOrders(elems: seq<PathElem>, orders: seq<seq<string>>)
  {
    |orders| == |elems| && forall i :: 0 <= i < |elems| ==> IsKeyOrder(orders[i], elems[i].key.Keys)
  }

  /** Every visited key belongs to the element it was visited for. */
  lemma KeyOrdersCover(elems: seq<PathElem>, orders: seq<seq<string>>)
    requires IsKeyOrders(elems, orders)
    ensures forall i, k :: 0 <= i < |elems| && k in orders[i] ==> k in elems[i].key
  {
    forall i, k | 0 <= i < |elems| && k in orders[i] ensures k in elems[i].key {
      var j :| 0 <= j < |orders[i]| && orders[i][j] == k;
    }
  }

  /** The value of `k` in `key`; the visited keys are always present. */
  function Value(key: map<string, string>, k: string): string
  {
    if k in key then key[k] else ""
  }

  /** `[k=v]` for every key, in visiting order. */
  function KeyText(key: map<string, string>, order: seq<string>): string
  {
    if order == [] then ""
    else
      var k := order[|order| - 1];
      KeyText(key, order[..|order| - 1]) + "[" + k + "=" + Value(key, k) + "]"
  }

  /** An element as rendered, without its closing `/`. */
  function Segment(e: PathElem, order: seq<string>): string
  {
    e.name + KeyText(e.key, order)
  }

  /** The rendered segments, one per element. */
  function Segments(elems: seq<PathElem>, orders: seq<seq<string>>): (r: seq<string>)
    requires |orders| == |elems|
    ensures |r| == |elems|
    ensures forall i :: 0 <= i < |elems| ==> r[i] == Segment(elems[i], orders[i])
  {
    if elems == [] then []
    else
      var n := |elems| - 1;
      Segments(elems[..n], orders[..n]) + [Segment(elems[n], orders[n])]
  }

  /** The text the element loop appends after the leading `/`: each segment closed by `/`. */
  function Body(elems: seq<PathElem>, orders: seq<seq<string>>): string
    requires |orders| == |elems|
  {
    if elems == [] then ""
    else
      var n := |elems| - 1;
      Body(elems[..n], orders[..n]) + Segment(elems[n], orders[n]) + "/"
  }

  /** The URI of a path: a `/`, the body, and one trailing `/` trimmed. */
  function Uri(elems: seq<PathElem>, orders: seq<seq<string>>): string
    requires |orders| == |elems|
  {
    TrimSuffix("/" + Body(elems, orders), "/")
  }

  lemma {:induction false} BodyJoin(elems: seq<PathElem>, orders: seq<seq<string>>)
    requires |orders| == |elems| && elems != []
    ensures Body(elems, orders) == Join(Segments(elems, orders), "/") + "/"
    decreases |elems|
  {
    var n := |elems| - 1;
    if n > 0 {
      BodyJoin(elems[..n], orders[..n]);
      JoinSnoc(Segments(elems[..n], orders[..n]), Segment(elems[n], orders[n]), "/");
    }
  }

  /**
   * A path with no elements renders as the empty string; otherwise the URI
   * is `/` followed by the segments joined with `/`, so it starts with `/`
   * and exactly the last `/` the loop appended is trimmed.
   */
  lemma UriShape(elems: seq<PathElem>, orders: seq<seq<string>>)
    requires |orders| == |elems|
    ensures elems == [] ==> Uri(elems, orders) == ""
    ensures elems != [] ==> Uri(elems, orders) == "/" + Join(Segments(elems, orders), "/")
    ensures elems != [] ==> Uri(elems, orders)[0] == '/' && Uri(elems, orders) + "/" == "/" + Body(elems, orders)
  {
    if elems != [] {
      BodyJoin(elems, orders);
      var u := "/" + Join(Segments(elems, orders), "/");
      assert "/" + Body(elems, orders) == u + "/";
      assert ("/" + Body(elems, orders))[..|u|] == u;
    }
  }

  /** An element without keys renders as its name; one key `k` renders as `name[k=v]`. */
  lemma SegmentText(e: PathElem, order: seq<string>)
    requires IsKeyOrder(order, e.key.Keys)
    ensures |e.key| == 0 ==> Segment(e, order) == e.name
    ensures |e.key| == 1 ==> exists k :: k in e.key && Segment(e, order) == e.name + "[" + k + "=" + e.key[k] + "]"
  {
    KeyOrderLength(order, e.key.Keys);
    assert |e.key.Keys| == |e.key|;
    if |e.key| == 1 {
      var k := order[0];
      assert order[..0] == [];
      assert KeyText(e.key, order) == KeyText(e.key, []) + "[" + k + "=" + e.key[k] + "]";
    }
  }

  /** A visiting order of at most one key is unique. */
  lemma SmallKeyOrder(order: seq<string>, order': seq<string>, keys: set<string>)
    requires IsKeyOrder(order, keys) && IsKeyOrder(order', keys) && |keys| <= 1
    ensures order == order'
  {
    KeyOrderLength(order, keys);
    KeyOrderLength(order', keys);
    if |keys| == 1 {
      assert order[0] in keys && order'[0] in keys;
      assert keys == {order[0]};
    }
  }

  /**
   * The map order matters only for elements with several keys: when every
   * element has at most one key, all visiting orders give the same URI.
   */
  lemma {:induction false} UriOrderFree(elems: seq<PathElem>, orders: seq<seq<string>>, orders': seq<seq<string>>)
    requires IsKeyOrders(elems, orders) && IsKeyOrders(elems, orders')
    requires forall i :: 0 <= i < |elems| ==> |elems[i].key| <= 1
    ensures Uri(elems, orders) == Uri(elems, orders')
  {
    forall i | 0 <= i < |elems| ensures orders[i] == orders'[i] {
      SmallKeyOrder(orders[i], orders'[i], elems[i].key.Keys);
    }
    assert orders == orders';
  }

  /** The text before the first `c` of `a + b`, when `a` has no `c` and `b` starts with one. */
  lemma {:induction false} BeforeCharAppend(a: string, b: string, c: char)
    requires c !in a && (b == [] || b[0] == c)
    ensures BeforeChar(a + b, c) == a
    decreases |a|
  {
    if a != [] {
      assert (a + b)[1..] == a[1..] + b;
      BeforeCharAppend(a[1..], b, c);
    } else {
      assert a + b == b;
    }
  }

  /** Key text is empty or starts with `[`, and has a `/` only where a key or value has one. */
  lemma {:induction false} KeyTextChars(key: map<string, string>, order: seq<string>)
    requires forall k :: k in order ==> k in key
    requires forall k :: k in key ==> '/' !in k && '/' !in key[k]
    ensures KeyText(key, order) == [] || KeyText(key, order)[0] == '['
    ensures '/' !in KeyText(key, order)
    decreases |order|
  {
    if order != [] {
      KeyTextChars(key, order[..|order| - 1]);
    }
  }

  /** Names and key text of the path contain no `/`, and names no `[`. */
  predicate PlainElems(elems: seq<PathElem>)
  {
    forall i :: 0 <= i < |elems| ==>
      && '/' !in elems[i].name && '[' !in elems[i].name
      && forall k :: k in elems[i].key ==> '/' !in k && '/' !in elems[i].key[k]
  }

  /**
   * The rendering loses no element: for a path whose names and keys are
   * free of the separators, splitting the URI after its leading `/` gives
   * one piece per element, and each piece up to its first `[` is the
   * element's name.
   */
  lemma UriNames(elems: seq<PathElem>, orders: seq<seq<string>>)
    requires IsKeyOrders(elems, orders) && elems != [] && PlainElems(elems)
    ensures |Uri(elems, orders)| >= 1
    ensures var parts := Split(Uri(elems, orders)[1..], "/");
      |parts| == |elems| && forall i :: 0 <= i < |elems| ==> BeforeChar(parts[i], '[') == elems[i].name
  {
    UriShape(elems, orders);
    KeyOrdersCover(elems, orders);
    var segs := Segments(elems, orders);
    forall p | p in segs ensures '/' !in p {
      var i :| 0 <= i < |segs| && segs[i] == p;
      KeyTextChars(elems[i].key, orders[i]);
    }
    SplitJoin(segs, '/');
    assert Uri(elems, orders)[1..] == Join(segs, "/");
    forall i | 0 <= i < |elems| ensures BeforeChar(segs[i], '[') == elems[i].name {
      KeyTextChars(elems[i].key, orders[i]);
      BeforeCharAppend(elems[i].name, KeyText(elems[i].key, orders[i]), '[');
    }
  }

  /** One more element rendered with keys visited in `visit`. */
  lemma OrdersStep(elems: seq<PathElem>, orders: seq<seq<string>>, i: nat, visit: seq<string>)
    requires i < |elems| && IsKeyOrders(elems[..i], orders)
    requires IsKeyOrder(visit, elems[i].key.Keys)
    ensures IsKeyOrders(elems[..i + 1], orders + [visit])
    ensures Body(elems[..i + 1], orders + [visit]) == Body(elems[..i], orders) + Segment(elems[i], visit) + "/"
  {
    assert elems[..i + 1][..i] == elems[..i];
    assert (orders + [visit])[..i] == orders;
  }

  /** The key loop of ConvertToURI: `[k=v]` for every key, in the order `order` visits them. */
  method AppendKeys(req: string, key: map<string, string>, order: seq<string>) returns (req': string)
    requires forall k :: k in order ==> k in key
    ensures req' == req + KeyText(key, order)
  {
    req' := req;
    for j := 0 to |order|
      invariant req' == req + KeyText(key, order[..j])
    {
      assert order[..j + 1][..j] == order[..j];
      req' := req' + "[" + order[j] + "=" + key[order[j]] + "]";
    }
    assert order[..|order|] == order;
  }

  /** One pass of ConvertToURI's element loop: the name, `[k=v]` per key in visiting order, then `/`. */
  method AppendElem(req: string, elem: PathElem) returns (req': string, ghost visit: seq<string>)
    ensures IsKeyOrder(visit, elem.key.Keys)
    ensures req' == req + Segment(elem, visit) + "/"
  {
    req' := req + elem.name;
    KeyOrderExists(elem.key.Keys);
    var order: seq<string> :| IsKeyOrder(order, elem.key.Keys);
    KeyOrderLength(order, elem.key.Keys);
    if |elem.key| == 0 {
      assert order == [];
      req' := req' + "/";
    } else {
      req' := AppendKeys(req', elem.key, order);
      req' := req' + "/";
    }
    visit := order;
  }

  /** `uri` is what ConvertToURI renders for `path` under `prefix` when it visits the keys in `orders`. */
  predicate RendersAs(prefix: Option<Path>, path: Path, orders: seq<seq<string>>, uri: string)
  {
    && IsKeyOrders(RenderedElems(prefix, path), orders)
    && uri == Uri(RenderedElems(prefix, path), orders)
  }

  /** ConvertToURI's element loop: `/`, then every element rendered and closed by `/`. */
  method AppendElems(elems: seq<PathElem>) returns (req: string, ghost orders: seq<seq<string>>)
    ensures IsKeyOrders(elems, orders)
    ensures req == "/" + Body(elems, orders)
  {
    req := "/";
    orders := [];
    for i := 0 to |elems|
      invariant IsKeyOrders(elems[..i], orders)
      invariant req == "/" + Body(elems[..i], orders)
    {
      ghost var visit;
      req, visit := AppendElem(req, elems[i]);
      OrdersStep(elems, orders, i, visit);
      orders := orders + [visit];
    }
    assert elems[..|elems|] == elems;
  }

  /**
   * ConvertToURI: renders the elements of the full path (or of `path` when
   * there is no prefix), trims the last `/`, and always succeeds; `orders`
   * are the key orders the loop visited.
   */
  method ConvertToURI(prefix: Option<Path>, path: Path) returns (st: Status, req: string, ghost orders: seq<seq<string>>)
    ensures st == Success
    ensures RendersAs(prefix, path, orders, req)
  {
    var fullPath := path;
    if prefix.Some? {
      fullPath := VdbPath.GnmiFullPath(prefix.value, path);
    }
    req, orders := AppendElems(fullPath.elem);
    req := TrimSuffix(req, "/");
    st := Success;
  }

  /**
   * PopulateClientPaths: every path of the request, identified by its
   * position, gets the URI ConvertToURI renders for it under `prefix`;
   * other entries of the map are kept, and the call always succeeds.
   */
  method PopulateClientPaths(prefix: Option<Path>, paths: seq<Path>, path2URI: map<nat, string>)
    returns (st: Status, path2URI': map<nat, string>, ghost orders: seq<seq<seq<string>>>)
    ensures st == Success
    ensures forall k: nat :: k in path2URI' <==> k in path2URI || k < |paths|
    ensures |orders| == |paths|
    ensures forall i :: 0 <= i < |paths| ==> RendersAs(prefix, paths[i], orders[i], path2URI'[i])
    ensures forall k :: k in path2URI && k >= |paths| ==> path2URI'[k] == path2URI[k]
  {
    path2URI' := path2URI;
    orders := [];
    for i := 0 to |paths|
      invariant forall k: nat :: k in path2URI' <==> k in path2URI || k < i
      invariant |orders| == i
      invariant forall j :: 0 <= j < i ==> RendersAs(prefix, paths[j], orders[j], path2URI'[j])
      invariant forall k :: k in path2URI && k >= i ==> path2URI'[k] == path2URI[k]
    {
      var _, req, o := ConvertToURI(prefix, paths[i]);
      ghost var before, ordersBefore := path2URI', orders;
      path2URI' := path2URI'[i := req];
      orders := orders + [o];
      forall j | 0 <= j <= i ensures RendersAs(prefix, paths[j], orders[j], path2URI'[j]) {
        if j < i {
          assert orders[j] == ordersBefore[j] && path2URI'[j] == before[j];
        }
      }
    }
    st := Success;
  }

  /** isTranslibSuccess: no error, or an error whose message is exactly `Success`. */
  function IsTranslibSuccess(err: Option<string>): (r: bool)
    ensures !r <==> err.Some? && err.value != "Success"
  {
    match err
    case None => true
    case Some(msg) => msg == "Success"
  }
}

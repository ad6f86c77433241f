/** The routing and admission glue of core/core.py, with the web framework
    abstracted away: a request is its client address and the verdict of the
    route's exemption callback, a response is either a 429 carrying the retry
    value or "the handler ran". */
module Core {
  import opened Wrappers
  import opened Text
  import opened Limiter

  // ---------------------------------------------------------------------------
  // The `limit` decorator

  datatype Bucket = Ip | User

  /** The metadata `limit` attaches; `exempt` records whether an exemption
      callback was given (its result is part of each request). */
  datatype RateLimitData = RateLimitData(rate: int, per: int, bucket: Bucket, exempt: bool)

  /** A route callback: its `__name__`, whether it is a coroutine function,
      and the `__limits__` attribute a `limit` decorator may have set. */
  datatype Coroutine = Coroutine(name: string, isCoroutine: bool, limits: Option<RateLimitData>)

  /** A `_Route`: the path as written in the decorator, the callback, the
      methods, the prefix flag and the limits (`None` for the empty dict). */
  datatype Route = Route(path: string, coro: Coroutine, methods: seq<string>, prefix: bool, limits: Option<RateLimitData>)

  /** What `limit` can decorate: a bare callback or a route already built. */
  datatype Decorated = Plain(coro: Coroutine) | Wrapped(route: Route)

  function LimitsOf(d: Decorated): Option<RateLimitData> {
    match d
    case Plain(c) => c.limits
    case Wrapped(r) => r.limits
  }

  /** `limit(rate, per, bucket="ip", exempt=None)` applied to `target`: it
      sets the limits and touches nothing else. */
  function Limit(target: Decorated, rate: int, per: int, bucket: Bucket := Ip, exempt: bool := false): (r: Decorated)
    ensures LimitsOf(r) == Some(RateLimitData(rate, per, bucket, exempt))
    ensures r.Plain? <==> target.Plain?
    ensures r.Plain? ==> r.coro.name == target.coro.name && r.coro.isCoroutine == target.coro.isCoroutine
    ensures r.Wrapped? ==> r.route.(limits := target.route.limits) == target.route
  {
    var data := RateLimitData(rate, per, bucket, exempt);
    match target
    case Plain(c) => Plain(c.(limits := Some(data)))
    case Wrapped(rt) => Wrapped(rt.(limits := Some(data)))
  }

  // ---------------------------------------------------------------------------
  // The `route` decorator

  /** Callback names a route may not have, compared lower-cased. */
  const Disallowed: seq<string> := ["get", "post", "put", "patch", "delete", "options"]

  /** Whether `route` refuses a callback name: its lower-cased form is listed.
      Each listed name is refused as written, and only names of three to
      seven characters can be. */
  function IsReservedName(name: string): (r: bool)
    ensures name in Disallowed ==> r
    ensures r ==> 3 <= |name| <= 7
  {
    LowerFixesListed(name);
    Lower(name) in Disallowed
  }

  /** The listed names are already lower case. */
  lemma LowerFixesListed(name: string)
    ensures name in Disallowed ==> Lower(name) == name
  {
    if name in Disallowed {
      assert forall i | 0 <= i < |name| :: !IsUpper(name[i]);
    }
  }

  datatype RouteError = NotCoroutine | ReservedName(name: string)

  /** `route(path, methods=["GET"], prefix=True)` applied to `coro`: a route
      exactly when the callback is a coroutine function with an allowed name;
      the route takes its limits from the callback. */
  function MakeRoute(path: string, coro: Coroutine, methods: seq<string> := ["GET"], prefix: bool := true): (r: Result<Route, RouteError>)
    ensures r.Ok? <==> coro.isCoroutine && !IsReservedName(coro.name)
    ensures !coro.isCoroutine ==> r == Err(NotCoroutine)
    ensures r.Err? && coro.isCoroutine ==> r.error == ReservedName(coro.name)
    ensures r.Ok? ==> r.value.path == path && r.value.coro == coro && r.value.methods == methods
    ensures r.Ok? ==> r.value.prefix == prefix && r.value.limits == coro.limits
  {
    if !coro.isCoroutine then Err(NotCoroutine)
    else if IsReservedName(coro.name) then Err(ReservedName(coro.name))
    else Ok(Route(path, coro, methods, prefix, coro.limits))
  }

  /** The name check ignores case: a name is refused exactly when its
      lower-cased form is. */
  lemma ReservedNameIgnoresCase(name: string)
    ensures IsReservedName(name) <==> IsReservedName(Lower(name))
  {
    LowerIdempotent(name);
  }

  /** `@route` over `@limit` and `@limit` over `@route` give the route the same limits. */
  lemma LimitOrderIrrelevant(path: string, coro: Coroutine, methods: seq<string>, prefix: bool, rate: int, per: int, bucket: Bucket, exempt: bool)
    requires MakeRoute(path, coro, methods, prefix).Ok?
    ensures MakeRoute(path, Limit(Plain(coro), rate, per, bucket, exempt).coro, methods, prefix).Ok?
    ensures MakeRoute(path, Limit(Plain(coro), rate, per, bucket, exempt).coro, methods, prefix).value.limits
            == Limit(Wrapped(MakeRoute(path, coro, methods, prefix).value), rate, per, bucket, exempt).route.limits
  {
  }

  // ---------------------------------------------------------------------------
  // Admission: `_Route.__call__`

  /** A request as the route sees it: the `X-Forwarded-For` header if sent,
      the socket peer address, and what the route's exemption callback (if
      any) answers for this request. */
  datatype Request = Request(forwardedFor: Option<string>, host: string, exemptVerdict: bool)

  /** The header when present and non-empty, the peer address otherwise. */
  function ClientIp(req: Request): (ip: string)
    ensures ip == req.host || (req.forwardedFor == Some(ip) && ip != "")
    ensures req.forwardedFor.Some? && req.forwardedFor.value != "" ==> ip == req.forwardedFor.value
  {
    if req.forwardedFor.Some? && req.forwardedFor.value != "" then req.forwardedFor.value else req.host
  }

  /** The IPv4 and IPv6 loopback addresses, never throttled. */
  function IsLoopback(ip: string): (r: bool)
    ensures r <==> ip in ["127.0.0.1", "::1"]
    ensures r ==> '@' !in ip
  {
    ip == "127.0.0.1" || ip == "::1"
  }

  /** The store key `"{ip}@{path}"`: the address, one `@`, then the path. */
  function RateLimitKey(ip: string, path: string): (key: string)
    ensures |key| == |ip| + 1 + |path|
    ensures key[..|ip|] == ip && key[|ip|] == '@' && key[|ip| + 1..] == path
  {
    ip + "@" + path
  }

  /** Splits a key at its first `@`. */
  function SplitKey(key: string): (r: (string, string))
    ensures '@' !in r.0
    ensures |r.0| + |r.1| < |key| ==> key == r.0 + "@" + r.1
    decreases |key|
  {
    if key == [] then ([], [])
    else if key[0] == '@' then ([], key[1..])
    else
      var rest := SplitKey(key[1..]);
      ([key[0]] + rest.0, rest.1)
  }

  /** For an address without `@` (every IPv4 and IPv6 address), the key
      gives back the address and the path. */
  lemma {:induction false} KeyRoundTrip(ip: string, path: string)
    requires '@' !in ip
    ensures SplitKey(RateLimitKey(ip, path)) == (ip, path)
    decreases |ip|
  {
    var key := RateLimitKey(ip, path);
    if ip != [] {
      assert key[0] == ip[0] && ip[0] != '@';
      assert key[1..] == RateLimitKey(ip[1..], path);
      KeyRoundTrip(ip[1..], path);
      assert [ip[0]] + ip[1..] == ip;
    }
  }

  /** Hence distinct (address, path) pairs with `@`-free addresses never share a bucket. */
  lemma KeyInjective(ip1: string, path1: string, ip2: string, path2: string)
    requires '@' !in ip1 && '@' !in ip2
    requires RateLimitKey(ip1, path1) == RateLimitKey(ip2, path2)
    ensures ip1 == ip2 && path1 == path2
  {
    KeyRoundTrip(ip1, path1);
    KeyRoundTrip(ip2, path2);
  }

  /** The client address comes from a header the client controls, so it may
      contain `@`; the route paths never do. Then the key's last `@` is the
      separator, and distinct (address, path) pairs still never share a bucket. */
  lemma KeyInjectiveOnPaths(ip1: string, path1: string, ip2: string, path2: string)
    requires '@' !in path1 && '@' !in path2
    requires RateLimitKey(ip1, path1) == RateLimitKey(ip2, path2)
    ensures ip1 == ip2 && path1 == path2
  {
    var key := RateLimitKey(ip1, path1);
    if |ip1| != |ip2| {
      assert false;
    }
  }

  /** Whether the limiter is consulted for this request, and with what. */
  datatype Gate = Bypass | Throttle(key: string, limit: RateLimit)

  /** The limiter is skipped when the exemption callback says so, when the
      route has no limits, and for loopback clients; otherwise the key is the
      client address and the route's own (unprefixed) path. */
  function Admission(route: Route, req: Request): (g: Gate)
    ensures g.Throttle? <==>
              route.limits.Some? && !(route.limits.value.exempt && req.exemptVerdict) && !IsLoopback(ClientIp(req))
    ensures g.Throttle? ==> g.key == RateLimitKey(ClientIp(req), route.path)
    ensures g.Throttle? ==> g.limit == RateLimit(route.limits.value.rate, route.limits.value.per)
  {
    if route.limits.Some? && route.limits.value.exempt && req.exemptVerdict then Bypass
    else if route.limits.Some? && !IsLoopback(ClientIp(req)) then
      Throttle(RateLimitKey(ClientIp(req), route.path), RateLimit(route.limits.value.rate, route.limits.value.per))
    else Bypass
  }

  /** The outcome of `_Route.__call__`: a 429 with the retry value, or the handler's response. */
  datatype Response = TooManyRequests(retryAfter: real) | Handled

  /** `_Route.__call__`: consult the store when `Admission` says so; a truthy
      retry value answers 429 and the handler does not run. `now` and `read`
      are the two clock reads the store's `update` makes. */
  method Serve(store: Store, route: Route, req: Request, now: real, read: real) returns (resp: Response)
    requires Admission(route, req).Throttle? ==> Admission(route, req).limit.Valid()
    modifies store
    ensures Admission(route, req).Bypass? ==> resp == Handled && store.keys == old(store.keys)
    ensures Admission(route, req).Throttle? ==>
              var step := Step(old(store.keys), Admission(route, req).key, Admission(route, req).limit, now, read);
              store.keys == step.1 &&
              resp == (if step.0.Retry? then TooManyRequests(step.0.after) else Handled)
  {
    var ip := ClientIp(req);
    if route.limits.Some? && route.limits.value.exempt && req.exemptVerdict {
      // exempted: fall through to the handler
    } else if route.limits.Some? && !IsLoopback(ip) {
      var limit := RateLimit(route.limits.value.rate, route.limits.value.per);
      var key := RateLimitKey(ip, route.path);
      var retry := store.Update(key, limit, now, read);
      // Python truthiness: `False` and `0.0` both let the request through.
      if retry.Retry? && retry.after != 0.0 {
        return TooManyRequests(retry.after);
      }
    }
    return Handled;
  }

  // ---------------------------------------------------------------------------
  // Views: `View.__new__`, `View.name`, `View.__eq__`

  /** A framework `Route` as a view or the application holds it. */
  datatype MountedRoute = MountedRoute(path: string, endpoint: Route, methods: seq<string>, name: string, limits: Option<RateLimitData>)

  /** A view instance: its class name and the routes built for it. */
  datatype View = View(className: string, routes: seq<MountedRoute>)

  /** `View.name`: the class name lower-cased. */
  function ViewName(v: View): (n: string)
    ensures |n| == |v.className| && Lower(n) == n
    ensures forall i | 0 <= i < |n| :: n[i] == LowerChar(v.className[i])
  {
    LowerIdempotent(v.className);
    Lower(v.className)
  }

  /** `View.__eq__`: views are equal when their names are. */
  function SameView(a: View, b: View): (r: bool)
    ensures r <==> |a.className| == |b.className| &&
                   forall i | 0 <= i < |a.className| :: LowerChar(a.className[i]) == LowerChar(b.className[i])
  {
    ViewName(a) == ViewName(b)
  }

  /** View equality is an equivalence, and ignores the case of class names. */
  lemma SameViewEquivalence(a: View, b: View, c: View)
    ensures SameView(a, a)
    ensures SameView(a, b) ==> SameView(b, a)
    ensures SameView(a, b) && SameView(b, c) ==> SameView(a, c)
    ensures SameView(a, a.(className := Lower(a.className)))
  {
    LowerIdempotent(a.className);
  }

  /** The path a route is mounted at inside view class `className`. */
  function RoutePath(className: string, r: Route): (p: string)
    ensures !r.prefix ==> p == r.path
    ensures r.prefix ==> |p| > |className| + 1 && p[..|className| + 2] == "/" + Lower(className) + "/"
    ensures r.prefix ==> p[|className| + 2..] == LStrip(r.path, '/')
  {
    if r.prefix then "/" + Lower(className) + "/" + LStrip(r.path, '/') else r.path
  }

  /** Leading slashes of a prefixed route's own path do not matter:
      `/hello`, `hello` and `//hello` in view `Stuff` all mount at `/stuff/hello`. */
  lemma PrefixIgnoresLeadingSlash(className: string, r: Route)
    requires r.prefix
    ensures RoutePath(className, r.(path := "/" + r.path)) == RoutePath(className, r)
  {
    LStripAbsorbs(r.path, '/');
  }

  /** The framework route built for one `_Route` member of a view. */
  function Mount(className: string, r: Route): (m: MountedRoute)
    ensures m.path == RoutePath(className, r) && m.endpoint == r
    ensures m.methods == r.methods && m.limits == r.limits
    ensures |m.name| == |className| + 1 + |r.coro.name|
    ensures m.name[..|className| + 1] == className + "." && m.name[|className| + 1..] == r.coro.name
  {
    MountedRoute(RoutePath(className, r), r, r.methods, className + "." + r.coro.name, r.limits)
  }

  /** `View.__new__`: one mounted route per `_Route` member, in member order. */
  method NewView(className: string, members: seq<Route>) returns (v: View)
    ensures v.className == className && |v.routes| == |members|
    ensures forall i | 0 <= i < |members| :: v.routes[i] == Mount(className, members[i])
  {
    var routes: seq<MountedRoute> := [];
    for i := 0 to |members|
      invariant |routes| == i
      invariant forall j | 0 <= j < i :: routes[j] == Mount(className, members[j])
    {
      routes := routes + [Mount(className, members[i])];
    }
    v := View(className, routes);
  }

  // ---------------------------------------------------------------------------
  // The application: `Application.__init__` and `Application.add_view`

  datatype AppError = DuplicateView(name: string)

  /** A truthy prefix: given and not empty. */
  predicate HasPrefix(prefix: Option<string>) {
    prefix.Some? && prefix.value != ""
  }

  /** The path under the application prefix: `"/" + prefix.lstrip("/") + path`
      for a non-empty prefix, `path` itself otherwise. */
  function JoinPrefix(prefix: Option<string>, path: string): (p: string)
    ensures !HasPrefix(prefix) ==> p == path
    ensures HasPrefix(prefix) ==> |p| > |path| && p[0] == '/' && p[|p| - |path|..] == path
    ensures HasPrefix(prefix) ==> p[1..|p| - |path|] == LStrip(prefix.value, '/')
  {
    if HasPrefix(prefix) then "/" + LStrip(prefix.value, '/') + path else path
  }

  /** `"api"`, `"/api"` and `"//api"` are the same prefix. */
  lemma PrefixIgnoresLeadingSlashes(prefix: string, path: string)
    requires prefix != ""
    ensures JoinPrefix(Some("/" + prefix), path) == JoinPrefix(Some(prefix), path)
  {
    LStripAbsorbs(prefix, '/');
  }

  /** One route as `add_view` re-registers it: only the path changes. */
  function Rebase(prefix: Option<string>, r: MountedRoute): (out: MountedRoute)
    ensures out.(path := r.path) == r
    ensures out.path == JoinPrefix(prefix, r.path)
  {
    r.(path := JoinPrefix(prefix, r.path))
  }

  /** The routes of a view as `add_view` registers them. */
  function RebaseAll(prefix: Option<string>, rs: seq<MountedRoute>): (out: seq<MountedRoute>)
    ensures |out| == |rs|
    ensures forall i | 0 <= i < |rs| :: out[i] == Rebase(prefix, rs[i])
  {
    seq(|rs|, i requires 0 <= i < |rs| => Rebase(prefix, rs[i]))
  }

  /** The routes of several views, in order, as `add_view` registers them. */
  function AllRoutes(prefix: Option<string>, vs: seq<View>): seq<MountedRoute>
    decreases |vs|
  {
    if vs == [] then []
    else AllRoutes(prefix, vs[..|vs| - 1]) + RebaseAll(prefix, vs[|vs| - 1].routes)
  }

  /** No two views share a name. */
  ghost predicate UniqueNames(views: seq<View>) {
    forall i, j | 0 <= i < j < |views| :: ViewName(views[i]) != ViewName(views[j])
  }

  /** `view in self._views`: a linear scan with `View.__eq__`. */
  method ContainsView(views: seq<View>, view: View) returns (found: bool)
    ensures found <==> exists i | 0 <= i < |views| :: SameView(views[i], view)
  {
    found := false;
    var i := 0;
    while i < |views| && !found
      invariant 0 <= i <= |views|
      invariant found <==> exists j | 0 <= j < i :: SameView(views[j], view)
    {
      found := SameView(views[i], view);
      i := i + 1;
    }
  }

  class Application {
    const prefix: Option<string>
    var views: seq<View>
    /** The routes registered with the router by `add_view`. */
    var routes: seq<MountedRoute>

    ghost predicate Valid()
      reads this
    {
      UniqueNames(views)
    }

    /** `__init__` before its views are added (see `AddViews`). */
    constructor(prefix: Option<string>)
      ensures Valid() && this.prefix == prefix && views == [] && routes == []
    {
      this.prefix := prefix;
      views := [];
      routes := [];
    }

    /** `add_view`: refuse a view whose name is taken, leaving everything as
        it was; otherwise register its routes under the prefix and record it. */
    method AddView(view: View) returns (err: Option<AppError>)
      requires Valid()
      modifies this
      ensures Valid()
      ensures err.Some? <==> exists i | 0 <= i < |old(views)| :: SameView(old(views)[i], view)
      ensures err.Some? ==> err.value == DuplicateView(ViewName(view))
      ensures err.Some? ==> views == old(views) && routes == old(routes)
      ensures err.None? ==> views == old(views) + [view]
      ensures err.None? ==> routes == old(routes) + RebaseAll(prefix, view.routes)
    {
      var taken := ContainsView(views, view);
      if taken {
        return Some(DuplicateView(ViewName(view)));
      }
      for i := 0 to |view.routes|
        invariant views == old(views)
        invariant routes == old(routes) + RebaseAll(prefix, view.routes[..i])
      {
        assert view.routes[..i + 1] == view.routes[..i] + [view.routes[i]];
        routes := routes + [Rebase(prefix, view.routes[i])];
      }
      assert view.routes[..|view.routes|] == view.routes;
      views := views + [view];
      return None;
    }

    /** The loop of `__init__` over its `views` argument: add each in turn;
        the first duplicate raises, leaving the views added before it. */
    method AddViews(vs: seq<View>) returns (err: Option<AppError>)
      requires Valid()
      modifies this
      ensures Valid()
      ensures err.None? ==> views == old(views) + vs
      ensures err.None? ==> routes == old(routes) + AllRoutes(prefix, vs)
      ensures err.Some? ==> exists k | 0 <= k < |vs| :: views == old(views) + vs[..k] &&
                               routes == old(routes) + AllRoutes(prefix, vs[..k]) &&
                               (exists i | 0 <= i < |views| :: SameView(views[i], vs[k]))
    {
      for k := 0 to |vs|
        invariant Valid()
        invariant views == old(views) + vs[..k]
        invariant routes == old(routes) + AllRoutes(prefix, vs[..k])
      {
        err := AddView(vs[k]);
        if err.Some? {
          return;
        }
        assert vs[..k + 1] == vs[..k] + [vs[k]];
        assert vs[..k + 1][..k] == vs[..k];
      }
      assert vs[..|vs|] == vs;
      return None;
    }
  }

  /** Without a (truthy) prefix, `add_view` registers a view's routes unchanged. */
  lemma RebaseAllKeepsPaths(prefix: Option<string>, rs: seq<MountedRoute>)
    requires !HasPrefix(prefix)
    ensures RebaseAll(prefix, rs) == rs
  {
  }
}

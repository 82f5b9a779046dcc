/** Storing cookies through a backend that takes one host at a time: scatter by host, gather the replies, answer once. */
module Cookies {
  import opened StringOrder
  import opened Collections

  datatype Cookie = Cookie(name: string, value: string, domain: string, attributes: string)

  const REFUSED: int := -1

  /** One call to the backend: the host of the url and the cookies passed along. */
  datatype Request = Request(host: string, cookies: seq<Cookie>)

  // ---- Host cookies lose their domain on the way out and get it back ----

  predicate HasLeadingDot(domain: string) {
    domain != "" && domain[0] == '.'
  }

  /** The host a cookie is stored for: its domain without a leading dot. */
  function HostOf(c: Cookie): string {
    if HasLeadingDot(c.domain) then c.domain[1..] else c.domain
  }

  /** A cookie as the backend gets it: without a leading dot it is a host cookie, and carries no domain. */
  function Outgoing(c: Cookie): Cookie {
    if HasLeadingDot(c.domain) then c else c.(domain := "")
  }

  function WithDomain(c: Cookie, domain: string): Cookie {
    if c.domain == "" then c.(domain := domain) else c
  }

  function CookiesWithDomain(cookies: seq<Cookie>, domain: string): (out: seq<Cookie>)
    ensures |out| == |cookies|
    ensures forall i :: 0 <= i < |cookies| ==> out[i] == WithDomain(cookies[i], domain)
  {
    seq(|cookies|, i requires 0 <= i < |cookies| => WithDomain(cookies[i], domain))
  }

  /** Every cookie, host cookie or not, comes back with its own domain. */
  lemma DomainRoundTrip(c: Cookie)
    ensures WithDomain(Outgoing(c), HostOf(c)) == c
  {
  }

  // ---- Grouping ----

  /** The cookies of one host, in order, as the backend gets them. */
  function ForHost(cookies: seq<Cookie>, host: string): seq<Cookie> {
    if cookies == [] then []
    else (if HostOf(cookies[0]) == host then [Outgoing(cookies[0])] else []) + ForHost(cookies[1..], host)
  }

  function Hosts(cookies: seq<Cookie>): set<string> {
    set c | c in cookies :: HostOf(c)
  }

  /** The cookies of one host as they were given. */
  function OfHost(cookies: seq<Cookie>, host: string): seq<Cookie> {
    if cookies == [] then []
    else (if HostOf(cookies[0]) == host then [cookies[0]] else []) + OfHost(cookies[1..], host)
  }

  lemma {:induction false} ForHostAppend(cookies: seq<Cookie>, c: Cookie, host: string)
    ensures ForHost(cookies + [c], host)
         == ForHost(cookies, host) + if HostOf(c) == host then [Outgoing(c)] else []
  {
    if cookies != [] {
      assert (cookies + [c])[1..] == cookies[1..] + [c];
      ForHostAppend(cookies[1..], c, host);
    } else {
      assert (cookies + [c])[1..] == [];
    }
  }

  lemma {:induction false} RestoredGroup(cookies: seq<Cookie>, host: string)
    ensures CookiesWithDomain(ForHost(cookies, host), host) == OfHost(cookies, host)
  {
    if cookies != [] {
      RestoredGroup(cookies[1..], host);
      DomainRoundTrip(cookies[0]);
    }
  }

  function GroupOf(groups: map<string, seq<Cookie>>, host: string): seq<Cookie> {
    if host in groups then groups[host] else []
  }

  /** A map from each host of some cookies to its cookies. */
  ghost predicate IsGrouping(groups: map<string, seq<Cookie>>, cookies: seq<Cookie>) {
    groups.Keys == Hosts(cookies) && forall host :: GroupOf(groups, host) == ForHost(cookies, host)
  }

  lemma GroupingStep(groups: map<string, seq<Cookie>>, cookies: seq<Cookie>, c: Cookie)
    requires IsGrouping(groups, cookies)
    ensures IsGrouping(groups[HostOf(c) := GroupOf(groups, HostOf(c)) + [Outgoing(c)]], cookies + [c])
  {
    var groups' := groups[HostOf(c) := GroupOf(groups, HostOf(c)) + [Outgoing(c)]];
    assert Hosts(cookies + [c]) == Hosts(cookies) + {HostOf(c)};
    forall host ensures GroupOf(groups', host) == ForHost(cookies + [c], host) {
      ForHostAppend(cookies, c, host);
      assert GroupOf(groups, host) == ForHost(cookies, host);
    }
  }

  lemma GroupingNext(groups: map<string, seq<Cookie>>, cookies: seq<Cookie>, i: nat)
    requires i < |cookies| && IsGrouping(groups, cookies[..i])
    ensures IsGrouping(groups[HostOf(cookies[i]) := GroupOf(groups, HostOf(cookies[i])) + [Outgoing(cookies[i])]],
                       cookies[..i + 1])
  {
    GroupingStep(groups, cookies[..i], cookies[i]);
    assert cookies[..i + 1] == cookies[..i] + [cookies[i]];
  }

  // ---- The helper ----

  /** The helper: whether a backend is set, the host of every request still waiting for its reply, the failures
      so far, the cookiesSet signals queued on the event loop, those sent, and every request made. */
  datatype Helper = Helper(
    backend: bool,
    pending: map<int, string>,
    failed: seq<Cookie>,
    queued: seq<seq<Cookie>>,
    sent: seq<seq<Cookie>>,
    requests: seq<Request>)

  const NEW_HELPER := Helper(true, map[], [], [], [], [])

  /** The backend's immediate answer for a host: a request id, or REFUSED. */
  function Answer(answers: map<string, int>, host: string): int {
    if host in answers then answers[host] else REFUSED
  }

  /** One request and its immediate answer: an id to wait for, or the refusal of the whole group. */
  function RequestedGroup(h: Helper, host: string, group: seq<Cookie>, answers: map<string, int>): Helper {
    var id := Answer(answers, host);
    var asked := h.(requests := h.requests + [Request(host, group)]);
    if id == REFUSED then asked.(failed := h.failed + CookiesWithDomain(group, host))
    else asked.(pending := h.pending[id := host])
  }

  function RequestedFor(h: Helper, cookies: seq<Cookie>, host: string, answers: map<string, int>): Helper {
    RequestedGroup(h, host, ForHost(cookies, host), answers)
  }

  /** Making the requests for some hosts, in order. */
  function Requested(h: Helper, cookies: seq<Cookie>, order: seq<string>, answers: map<string, int>): Helper
    decreases |order|
  {
    if order == [] then h
    else Requested(RequestedFor(h, cookies, order[0], answers), cookies, order[1..], answers)
  }

  lemma RequestedFirst(h: Helper, cookies: seq<Cookie>, host: string, rest: seq<string>, answers: map<string, int>)
    ensures Requested(h, cookies, [host] + rest, answers)
         == Requested(RequestedFor(h, cookies, host, answers), cookies, rest, answers)
  {
    assert ([host] + rest)[1..] == rest;
  }

  predicate Accepts(h: Helper) {
    h.backend && h.pending == map[]
  }

  ghost function AfterSetCookies(h: Helper, cookies: seq<Cookie>, answers: map<string, int>): Helper {
    if !Accepts(h) then h
    else if cookies == [] then h.(failed := [], queued := h.queued + [[]])
    else
      var h' := Requested(h.(failed := []), cookies, SortedKeys(Hosts(cookies)), answers);
      if h'.pending == map[] then h'.(queued := h'.queued + [h'.failed]) else h'
  }

  function AfterReply(h: Helper, id: int, named: seq<Cookie>): Helper {
    var host := if id in h.pending then h.pending[id] else "";
    var h' := h.(failed := h.failed + CookiesWithDomain(named, host), pending := h.pending - {id});
    if h'.pending == map[] then h'.(sent := h'.sent + [h'.failed]) else h'
  }

  function AfterDelivery(h: Helper): Helper
    requires h.queued != []
  {
    h.(queued := h.queued[1..], sent := h.sent + [h.queued[0]])
  }

  // ---- Requests: every cookie goes out once, in the one request of its host ----

  /** The cookies of some hosts that the backend refuses at once. */
  function RefusedOf(cookies: seq<Cookie>, hosts: set<string>, answers: map<string, int>): seq<Cookie> {
    if cookies == [] then []
    else
      (if HostOf(cookies[0]) in hosts && Answer(answers, HostOf(cookies[0])) == REFUSED then [cookies[0]] else [])
      + RefusedOf(cookies[1..], hosts, answers)
  }

  lemma {:induction false} RefusedCount(
      cookies: seq<Cookie>, hosts: set<string>, host: string, answers: map<string, int>, x: Cookie)
    requires host !in hosts
    ensures multiset(RefusedOf(cookies, hosts + {host}, answers))[x]
         == multiset(RefusedOf(cookies, hosts, answers))[x]
          + if Answer(answers, host) == REFUSED then multiset(OfHost(cookies, host))[x] else 0
  {
    if cookies != [] {
      RefusedCount(cookies[1..], hosts, host, answers, x);
    }
  }

  lemma RefusedSplit(cookies: seq<Cookie>, hosts: set<string>, host: string, answers: map<string, int>)
    requires host !in hosts
    ensures multiset(RefusedOf(cookies, hosts + {host}, answers))
         == multiset(RefusedOf(cookies, hosts, answers))
          + if Answer(answers, host) == REFUSED then multiset(OfHost(cookies, host)) else multiset{}
  {
    forall x
      ensures multiset(RefusedOf(cookies, hosts + {host}, answers))[x]
           == multiset(RefusedOf(cookies, hosts, answers))[x]
            + if Answer(answers, host) == REFUSED then multiset(OfHost(cookies, host))[x] else 0
    {
      RefusedCount(cookies, hosts, host, answers, x);
    }
  }

  lemma {:induction false} NoneRefused(cookies: seq<Cookie>, answers: map<string, int>)
    ensures RefusedOf(cookies, {}, answers) == []
  {
    if cookies != [] {
      NoneRefused(cookies[1..], answers);
    }
  }

  function Elements(order: seq<string>): set<string> {
    set host | host in order
  }

  /** One request for every host, in order, with the cookies of that host. */
  lemma {:induction false} OneRequestPerHost(h: Helper, cookies: seq<Cookie>, order: seq<string>, answers: map<string, int>)
    ensures
      var h' := Requested(h, cookies, order, answers);
      && |h'.requests| == |h.requests| + |order|
      && h'.requests[..|h.requests|] == h.requests
      && (forall i :: 0 <= i < |order| ==>
            h'.requests[|h.requests| + i] == Request(order[i], ForHost(cookies, order[i])))
      && h' == h.(pending := h'.pending, failed := h'.failed, requests := h'.requests)
    decreases |order|
  {
    if order != [] {
      OneRequestPerHost(RequestedFor(h, cookies, order[0], answers), cookies, order[1..], answers);
    }
  }

  /** The failures of the requests refused at once are the cookies of their hosts, each with its own domain. */
  lemma {:induction false} RefusedFail(h: Helper, cookies: seq<Cookie>, order: seq<string>, answers: map<string, int>)
    requires Distinct(order)
    ensures multiset(Requested(h, cookies, order, answers).failed)
         == multiset(h.failed) + multiset(RefusedOf(cookies, Elements(order), answers))
    decreases |order|
  {
    if order == [] {
      NoneRefused(cookies, answers);
      assert Elements(order) == {};
    } else {
      var host, rest := order[0], order[1..];
      var h1 := RequestedFor(h, cookies, host, answers);
      RefusedFail(h1, cookies, rest, answers);
      RestoredGroup(cookies, host);
      assert Elements(order) == Elements(rest) + {host};
      RefusedSplit(cookies, Elements(rest), host, answers);
      assert multiset(h1.failed)
          == multiset(h.failed) + if Answer(answers, host) == REFUSED then multiset(OfHost(cookies, host)) else multiset{};
    }
  }

  /** The cookies whose host the backend refuses at once. */
  function Refusals(cookies: seq<Cookie>, answers: map<string, int>): seq<Cookie> {
    RefusedOf(cookies, Hosts(cookies), answers)
  }

  /** The cookies of some requests, each with its own domain again. */
  function Returned(requests: seq<Request>): seq<Cookie> {
    if requests == [] then []
    else CookiesWithDomain(requests[0].cookies, requests[0].host) + Returned(requests[1..])
  }

  lemma {:induction false} AllRefused(cookies: seq<Cookie>, hosts: set<string>)
    requires Hosts(cookies) <= hosts
    ensures RefusedOf(cookies, hosts, map[]) == cookies
  {
    if cookies != [] {
      assert cookies[0] in cookies && HostOf(cookies[0]) in Hosts(cookies);
      assert Hosts(cookies[1..]) <= Hosts(cookies);
      AllRefused(cookies[1..], hosts);
    }
  }

  lemma {:induction false} RefusedReturn(h: Helper, cookies: seq<Cookie>, order: seq<string>)
    ensures
      var h' := Requested(h, cookies, order, map[]);
      |h'.requests| >= |h.requests| && h'.failed == h.failed + Returned(h'.requests[|h.requests|..])
    decreases |order|
  {
    OneRequestPerHost(h, cookies, order, map[]);
    var h' := Requested(h, cookies, order, map[]);
    if order != [] {
      var h1 := RequestedFor(h, cookies, order[0], map[]);
      OneRequestPerHost(h1, cookies, order[1..], map[]);
      RefusedReturn(h1, cookies, order[1..]);
      var made := h'.requests[|h.requests|..];
      assert made[0] == Request(order[0], ForHost(cookies, order[0]));
      assert made[1..] == h'.requests[|h1.requests|..];
    }
  }

  lemma HostsInOrder(cookies: seq<Cookie>)
    ensures Distinct(SortedKeys(Hosts(cookies))) && Elements(SortedKeys(Hosts(cookies))) == Hosts(cookies)
  {
    AscendingDistinct(SortedKeys(Hosts(cookies)));
  }

  /** An accepted call makes one request for each host of its cookies, hosts ascending, every cookie of the host
      in its order; put together again the requests are a permutation of the cookies. */
  lemma EveryCookieGoesOutOnce(h: Helper, cookies: seq<Cookie>, answers: map<string, int>)
    requires Accepts(h)
    ensures
      var order := SortedKeys(Hosts(cookies));
      var requests := AfterSetCookies(h, cookies, answers).requests;
      && Elements(order) == Hosts(cookies) && Ascending(order)
      && |requests| == |h.requests| + |order|
      && (forall i :: 0 <= i < |order| ==>
            requests[|h.requests| + i] == Request(order[i], ForHost(cookies, order[i])))
      && multiset(Returned(requests[|h.requests|..])) == multiset(cookies)
  {
    var order := SortedKeys(Hosts(cookies));
    var h0 := h.(failed := []);
    HostsInOrder(cookies);
    if cookies == [] {
      assert Hosts(cookies) == {};
      assert h.requests[|h.requests|..] == [];
    } else {
      OneRequestPerHost(h0, cookies, order, answers);
      RequestsReturn(h0, cookies, order, answers);
    }
  }

  lemma {:induction false} RequestsIgnoreAnswers(h1: Helper, h2: Helper, cookies: seq<Cookie>, order: seq<string>,
                                                answers1: map<string, int>, answers2: map<string, int>)
    requires h1.requests == h2.requests
    ensures Requested(h1, cookies, order, answers1).requests == Requested(h2, cookies, order, answers2).requests
    decreases |order|
  {
    if order != [] {
      RequestsIgnoreAnswers(RequestedFor(h1, cookies, order[0], answers1),
        RequestedFor(h2, cookies, order[0], answers2), cookies, order[1..], answers1, answers2);
    }
  }

  /** The requests do not depend on the answers; put together again they hold every cookie. */
  lemma RequestsReturn(h: Helper, cookies: seq<Cookie>, order: seq<string>, answers: map<string, int>)
    requires h.failed == [] && Distinct(order) && Elements(order) == Hosts(cookies)
    ensures
      var requests := Requested(h, cookies, order, answers).requests;
      |requests| >= |h.requests| && multiset(Returned(requests[|h.requests|..])) == multiset(cookies)
  {
    var failed := Requested(h, cookies, order, map[]).failed;
    RequestsIgnoreAnswers(h, h, cookies, order, answers, map[]);
    RefusedReturn(h, cookies, order);
    assert failed == Returned(Requested(h, cookies, order, map[]).requests[|h.requests|..]);
    assert multiset(failed) == multiset(cookies) by {
      RefusedFail(h, cookies, order, map[]);
      AllRefused(cookies, Hosts(cookies));
    }
  }

  // ---- Requests by domain ----

  /** A domain stands for a host by being it, or by being it with a dot in front; a domain that starts with a dot
      always has one in front. */
  predicate StandsFor(domain: string, host: string) {
    if "." <= domain then domain == "." + host else domain == host
  }

  lemma HostStandsFor(c: Cookie, host: string)
    ensures HostOf(c) == host <==> StandsFor(c.domain, host)
  {
    if HasLeadingDot(c.domain) {
      assert c.domain == "." + c.domain[1..];
      assert host == ("." + host)[1..];
    }
  }

  predicate SameButOneDot(a: string, b: string) {
    || a == b
    || ("." <= a && !("." <= b) && a == "." + b)
    || ("." <= b && !("." <= a) && b == "." + a)
  }

  /** Two cookies belong to one host exactly when their domains are the same up to one dot in front. */
  lemma SameHost(a: Cookie, b: Cookie)
    ensures HostOf(a) == HostOf(b) <==> SameButOneDot(a.domain, b.domain)
  {
    HostStandsFor(a, HostOf(a));
    HostStandsFor(a, HostOf(b));
    HostStandsFor(b, HostOf(a));
    HostStandsFor(b, HostOf(b));
  }

  /** A cookie on its way: unchanged when its domain has a dot in front, and otherwise without a domain. */
  function Sent(c: Cookie): Cookie {
    if "." <= c.domain then c else Cookie(c.name, c.value, "", c.attributes)
  }

  lemma {:induction false} GroupIsFilter(cookies: seq<Cookie>, host: string)
    ensures |ForHost(cookies, host)| == |Filter(cookies, (c: Cookie) => StandsFor(c.domain, host))|
    ensures forall i :: 0 <= i < |ForHost(cookies, host)| ==>
      ForHost(cookies, host)[i] == Sent(Filter(cookies, (c: Cookie) => StandsFor(c.domain, host))[i])
  {
    if cookies != [] {
      HostStandsFor(cookies[0], host);
      GroupIsFilter(cookies[1..], host);
      assert HasLeadingDot(cookies[0].domain) <==> "." <= cookies[0].domain;
    }
  }

  /** The request has the cookies whose domains stand for its host, in their order, each as it is sent; and its host
      does not start with a dot when no domain starts with two. */
  ghost predicate IsGroupRequest(request: Request, cookies: seq<Cookie>) {
    var group := Filter(cookies, (c: Cookie) => StandsFor(c.domain, request.host));
    && |group| > 0 && |request.cookies| == |group|
    && (forall k :: 0 <= k < |group| ==> request.cookies[k] == Sent(group[k]))
    && ((forall c :: c in cookies ==> !(".." <= c.domain)) ==> !("." <= request.host))
  }

  /** The requests made from the given position on: no host twice, a request for every cookie, and each with the
      cookies of its host. */
  ghost predicate AskedByDomain(requests: seq<Request>, from: nat, cookies: seq<Cookie>) {
    && (forall i, j :: from <= i < j < |requests| ==> requests[i].host != requests[j].host)
    && (forall c :: c in cookies ==> exists i :: from <= i < |requests| && StandsFor(c.domain, requests[i].host))
    && (forall i :: from <= i < |requests| ==> IsGroupRequest(requests[i], cookies))
  }

  /** An accepted call asks once for every host that a domain stands for, and for no other, with the cookies of those
      domains. */
  lemma RequestsAreByDomain(h: Helper, cookies: seq<Cookie>, answers: map<string, int>)
    requires Accepts(h)
    ensures
      var requests := AfterSetCookies(h, cookies, answers).requests;
      && |h.requests| <= |requests| && requests[..|h.requests|] == h.requests
      && AskedByDomain(requests, |h.requests|, cookies)
  {
    var requests, order := AfterSetCookies(h, cookies, answers).requests, SortedKeys(Hosts(cookies));
    RequestsOfCall(h, cookies, answers);
    OrderAsks(requests, |h.requests|, cookies, order);
  }

  ghost predicate AskedInOrder(requests: seq<Request>, from: nat, cookies: seq<Cookie>, order: seq<string>) {
    && |requests| == from + |order|
    && forall k :: 0 <= k < |order| ==> requests[from + k] == Request(order[k], ForHost(cookies, order[k]))
  }

  lemma OrderAsks(requests: seq<Request>, from: nat, cookies: seq<Cookie>, order: seq<string>)
    requires Elements(order) == Hosts(cookies) && Ascending(order) && AskedInOrder(requests, from, cookies, order)
    ensures AskedByDomain(requests, from, cookies)
  {
    AscendingDistinct(order);
    forall i | from <= i < |requests| ensures requests[i].host == order[i - from] {
      assert requests[from + (i - from)] == requests[i];
    }
    forall i | from <= i < |requests| ensures IsGroupRequest(requests[i], cookies) {
      assert requests[from + (i - from)] == requests[i];
      assert order[i - from] in Elements(order);
      RequestOfHost(cookies, order[i - from]);
    }
    forall c | c in cookies ensures exists i :: from <= i < |requests| && StandsFor(c.domain, requests[i].host) {
      var k := OrderOfHost(cookies, c, order);
      assert requests[from + k].host == order[k];
    }
  }

  lemma OrderOfHost(cookies: seq<Cookie>, c: Cookie, order: seq<string>) returns (k: nat)
    requires c in cookies && Elements(order) == Hosts(cookies)
    ensures k < |order| && StandsFor(c.domain, order[k])
  {
    assert HostOf(c) in Elements(order);
    k :| 0 <= k < |order| && order[k] == HostOf(c);
    HostStandsFor(c, order[k]);
  }

  lemma RequestsOfCall(h: Helper, cookies: seq<Cookie>, answers: map<string, int>)
    requires Accepts(h)
    ensures
      var order, requests := SortedKeys(Hosts(cookies)), AfterSetCookies(h, cookies, answers).requests;
      && Elements(order) == Hosts(cookies) && Ascending(order)
      && |h.requests| <= |requests| && requests[..|h.requests|] == h.requests
      && AskedInOrder(requests, |h.requests|, cookies, order)
  {
    EveryCookieGoesOutOnce(h, cookies, answers);
    if cookies != [] {
      OneRequestPerHost(h.(failed := []), cookies, SortedKeys(Hosts(cookies)), answers);
    } else {
      assert Hosts(cookies) == {};
    }
  }

  lemma RequestOfHost(cookies: seq<Cookie>, host: string)
    requires host in Hosts(cookies)
    ensures IsGroupRequest(Request(host, ForHost(cookies, host)), cookies)
  {
    var c :| c in cookies && HostOf(c) == host;
    HostStandsFor(c, host);
    GroupIsFilter(cookies, host);
    HostHasGroup(cookies, c);
    if "." <= host && "." <= c.domain {
      assert c.domain == "." + host;
      assert ".." <= c.domain;
    }
  }

  lemma {:induction false} HostHasGroup(cookies: seq<Cookie>, c: Cookie)
    requires c in cookies
    ensures |ForHost(cookies, HostOf(c))| > 0
  {
    if HostOf(cookies[0]) != HostOf(c) {
      assert cookies == [cookies[0]] + cookies[1..];
      HostHasGroup(cookies[1..], c);
    }
  }

  // ---- Answers that are queued ----

  /** An accepted call without cookies makes no request and queues an answer without cookies. */
  lemma EmptyCallAnswered(h: Helper, answers: map<string, int>)
    requires Accepts(h)
    ensures
      var h' := AfterSetCookies(h, [], answers);
      && h'.queued == h.queued + [[]] && h'.failed == [] && h'.sent == h.sent
      && h'.requests == h.requests && h'.pending == map[]
  {
  }

  /** Queued answers are sent one by one in the order in which they were queued. */
  lemma DeliveryKeepsOrder(h: Helper)
    requires h.queued != []
    ensures var h' := AfterDelivery(h);
      h'.sent + h'.queued == h.sent + h.queued && |h'.queued| == |h.queued| - 1 && h'.pending == h.pending
  {
  }

  /** A reply to a request that is not pending restores an empty domain, and is answered when nothing is pending. */
  lemma UnknownReply(h: Helper, id: int, named: seq<Cookie>)
    requires id !in h.pending
    ensures
      var h' := AfterReply(h, id, named);
      && h'.failed == h.failed + named && h'.pending == h.pending && h'.requests == h.requests
      && h'.sent == (if h.pending == map[] then h.sent + [h.failed + named] else h.sent)
  {
    assert CookiesWithDomain(named, "") == named;
  }
}

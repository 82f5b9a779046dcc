/** The cookie helper object, proved against the functions of Cookies. */
module CookieHelper {
  import opened Cookies
  import opened StringOrder

  class OxideCookieHelper {
    var backend: bool
    var pendingCalls: map<int, string>
    var failedCookies: seq<Cookie>
    var queued: seq<seq<Cookie>>
    var sent: seq<seq<Cookie>>
    var requests: seq<Request>

    function State(): Helper
      reads this
    {
      Helper(backend, pendingCalls, failedCookies, queued, sent, requests)
    }

    constructor ()
      ensures State() == NEW_HELPER
    {
      backend, pendingCalls, failedCookies, queued, sent, requests := true, map[], [], [], [], [];
    }

    /** One round of the grouping loop: without a leading dot the cookie loses its domain. */
    method AddToGroup(groups: map<string, seq<Cookie>>, cookie: Cookie) returns (grown: map<string, seq<Cookie>>)
      ensures grown == groups[HostOf(cookie) := GroupOf(groups, HostOf(cookie)) + [Outgoing(cookie)]]
    {
      var c := cookie;
      var host := c.domain;
      if HasLeadingDot(host) {
        host := host[1..];
      } else {
        c := c.(domain := "");
      }
      var domainCookies := GroupOf(groups, host);
      grown := groups[host := domainCookies + [c]];
    }

    /** The grouping loop: a map from each host to its cookies. */
    method Group(cookies: seq<Cookie>) returns (cookiesPerHost: map<string, seq<Cookie>>)
      ensures IsGrouping(cookiesPerHost, cookies)
    {
      cookiesPerHost := map[];
      for i := 0 to |cookies|
        invariant IsGrouping(cookiesPerHost, cookies[..i])
      {
        GroupingNext(cookiesPerHost, cookies, i);
        cookiesPerHost := AddToGroup(cookiesPerHost, cookies[i]);
      }
      assert cookies[..|cookies|] == cookies;
    }

    /** Asks the backend for one host. */
    method Ask(host: string, group: seq<Cookie>, answers: map<string, int>)
      modifies this
      ensures State() == RequestedGroup(old(State()), host, group, answers)
    {
      requests := requests + [Request(host, group)];
      var requestId := Answer(answers, host);
      if requestId == REFUSED {
        failedCookies := failedCookies + CookiesWithDomain(group, host);
      } else {
        pendingCalls := pendingCalls[requestId := host];
      }
    }

    /** Groups the cookies and asks for one host after the other, in ascending order. */
    method RequestAll(cookies: seq<Cookie>, answers: map<string, int>)
      modifies this
      ensures State() == Requested(old(State()), cookies, SortedKeys(Hosts(cookies)), answers)
    {
      var cookiesPerHost := Group(cookies);
      ghost var start := State();
      var left := cookiesPerHost.Keys;
      while left != {}
        invariant left <= cookiesPerHost.Keys
        invariant Requested(State(), cookies, SortedKeys(left), answers)
               == Requested(start, cookies, SortedKeys(Hosts(cookies)), answers)
        decreases |left|
      {
        LeastExists(left);
        var host :| host in left && IsLeast(host, left);
        SortedKeysOfLeast(host, left);
        RequestedFirst(State(), cookies, host, SortedKeys(left - {host}), answers);
        assert GroupOf(cookiesPerHost, host) == ForHost(cookies, host);
        Ask(host, cookiesPerHost[host], answers);
        left := left - {host};
      }
    }

    method SetCookies(cookies: seq<Cookie>, answers: map<string, int>)
      modifies this
      ensures State() == AfterSetCookies(old(State()), cookies, answers)
    {
      if !backend || pendingCalls != map[] {
        return;
      }
      failedCookies := [];
      if cookies == [] {
        queued := queued + [[]];
        return;
      }
      RequestAll(cookies, answers);
      if pendingCalls == map[] {
        queued := queued + [failedCookies];
      }
    }

    method OxideCookiesUpdated(requestId: int, named: seq<Cookie>)
      modifies this
      ensures State() == AfterReply(old(State()), requestId, named)
    {
      var host := if requestId in pendingCalls then pendingCalls[requestId] else "";
      failedCookies := failedCookies + CookiesWithDomain(named, host);
      pendingCalls := pendingCalls - {requestId};
      if pendingCalls == map[] {
        sent := sent + [failedCookies];
      }
    }

    /** The event loop delivers a queued signal. */
    method DeliverQueued()
      requires queued != []
      modifies this
      ensures State() == AfterDelivery(old(State()))
    {
      sent := sent + [queued[0]];
      queued := queued[1..];
    }
  }
}

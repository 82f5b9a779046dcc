/** Runs of the cookie helper: calls, replies in any order, and one answer for every accepted call. */
module CookieProtocol {
  import opened Collections
  import opened Cookies
  import opened StringOrder

  // ---- Runs ----

  /** Requests in one call get different ids, unless they are refused. */
  ghost predicate DistinctIds(answers: map<string, int>, hosts: set<string>) {
    forall a, b :: a in hosts && b in hosts && a != b && Answer(answers, a) == Answer(answers, b) ==>
      Answer(answers, a) == REFUSED
  }

  datatype Step = SetCookies(cookies: seq<Cookie>, answers: map<string, int>) | Reply(id: int, named: seq<Cookie>) | Deliver

  /** The backend gives distinct ids and replies only to requests it accepted and has not replied to. */
  ghost predicate Possible(h: Helper, step: Step) {
    match step
    case SetCookies(cookies, answers) => DistinctIds(answers, Hosts(cookies))
    case Reply(id, _) => id in h.pending
    case Deliver => h.queued != []
  }

  ghost function After(h: Helper, step: Step): Helper
    requires Possible(h, step)
  {
    match step
    case SetCookies(cookies, answers) => AfterSetCookies(h, cookies, answers)
    case Reply(id, named) => AfterReply(h, id, named)
    case Deliver => AfterDelivery(h)
  }

  ghost predicate IsRun(h: Helper, steps: seq<Step>)
    decreases |steps|
  {
    steps == [] || (Possible(h, steps[0]) && IsRun(After(h, steps[0]), steps[1..]))
  }

  ghost function End(h: Helper, steps: seq<Step>): Helper
    requires IsRun(h, steps)
    decreases |steps|
  {
    if steps == [] then h else End(After(h, steps[0]), steps[1..])
  }

  /** How many calls of a run were accepted. */
  ghost function AcceptedCalls(h: Helper, steps: seq<Step>): nat
    requires IsRun(h, steps)
    decreases |steps|
  {
    if steps == [] then 0
    else (if steps[0].SetCookies? && Accepts(h) then 1 else 0) + AcceptedCalls(After(h, steps[0]), steps[1..])
  }

  /** Answers given, answers under way, and the call still waiting for replies. */
  function Answers(h: Helper): nat {
    |h.sent| + |h.queued| + if h.pending == map[] then 0 else 1
  }

  lemma StepAnswersOnce(h: Helper, step: Step)
    requires Possible(h, step)
    ensures Answers(After(h, step)) == Answers(h) + if step.SetCookies? && Accepts(h) then 1 else 0
    ensures |h.sent| <= |After(h, step).sent|
  {
    if step.SetCookies? && Accepts(h) && step.cookies != [] {
      OneRequestPerHost(h.(failed := []), step.cookies, SortedKeys(Hosts(step.cookies)), step.answers);
    }
  }

  /** Over every run, each accepted call has one answer, given, queued or still being gathered: as many
      cookiesSet signals as accepted calls once nothing is queued or pending. */
  lemma {:induction false} EveryCallAnsweredOnce(h: Helper, steps: seq<Step>)
    requires IsRun(h, steps)
    ensures Answers(End(h, steps)) == Answers(h) + AcceptedCalls(h, steps)
    ensures var e := End(h, steps);
      Answers(h) == 0 && e.pending == map[] && e.queued == [] ==> |e.sent| == AcceptedCalls(h, steps)
    decreases |steps|
  {
    if steps != [] {
      StepAnswersOnce(h, steps[0]);
      EveryCallAnsweredOnce(After(h, steps[0]), steps[1..]);
    }
  }

  // ---- One call ----

  /** The requests accepted in a call are pending under their ids, and nothing else is. */
  lemma {:induction false} AcceptedArePending(h: Helper, cookies: seq<Cookie>, order: seq<string>, answers: map<string, int>)
    requires Distinct(order) && DistinctIds(answers, Elements(order))
    requires forall host :: host in order && Answer(answers, host) != REFUSED ==> Answer(answers, host) !in h.pending
    ensures
      var pending := Requested(h, cookies, order, answers).pending;
      && (forall id :: id in h.pending ==> id in pending && pending[id] == h.pending[id])
      && (forall host :: host in order && Answer(answers, host) != REFUSED ==>
            Answer(answers, host) in pending && pending[Answer(answers, host)] == host)
      && (forall id :: id in pending && id !in h.pending ==>
            pending[id] in order && Answer(answers, pending[id]) == id && id != REFUSED)
    decreases |order|
  {
    if order != [] {
      var first, rest := order[0], order[1..];
      var h1 := RequestedFor(h, cookies, first, answers);
      DistinctTail(order);
      assert first in order;
      forall host | host in rest && Answer(answers, host) != REFUSED
        ensures host in order && host != first && Answer(answers, host) !in h1.pending
      {
        assert first in Elements(order) && host in Elements(order);
      }
      assert Elements(rest) <= Elements(order);
      AcceptedArePending(h1, cookies, rest, answers);
      var pending := Requested(h1, cookies, rest, answers).pending;
      forall id | id in h.pending ensures id in pending && pending[id] == h.pending[id] {
        assert id in h1.pending && h1.pending[id] == h.pending[id];
      }
      forall id | id in pending && id !in h.pending
        ensures pending[id] in order && Answer(answers, pending[id]) == id && id != REFUSED
      {
        assert id in h1.pending ==> pending[id] == h1.pending[id] == first;
      }
    }
  }

  /** A run during which the call is in progress before every step. */
  ghost predicate InProgress(h: Helper, steps: seq<Step>): (ongoing: bool)
    ensures ongoing ==> IsRun(h, steps)
    decreases |steps|
  {
    steps == [] || (h.pending != map[] && Possible(h, steps[0]) && InProgress(After(h, steps[0]), steps[1..]))
  }

  /** The cookies the replies of a run name, each with the domain of its request. */
  ghost function Named(h: Helper, steps: seq<Step>): seq<Cookie>
    requires InProgress(h, steps)
    decreases |steps|
  {
    if steps == [] then []
    else
      (if steps[0].Reply? then CookiesWithDomain(steps[0].named, h.pending[steps[0].id]) else [])
      + Named(After(h, steps[0]), steps[1..])
  }

  function Replied(steps: seq<Step>): seq<int> {
    if steps == [] then []
    else (if steps[0].Reply? then [steps[0].id] else []) + Replied(steps[1..])
  }

  lemma StepInProgress(h: Helper, step: Step)
    requires h.pending != map[] && Possible(h, step)
    ensures !step.Reply? ==> After(h, step).pending == h.pending && After(h, step).failed == h.failed
    ensures After(h, step).requests == h.requests
    ensures step.Reply? ==> After(h, step).pending == h.pending - {step.id}
    ensures step.SetCookies? ==> After(h, step) == h
  {
  }

  /** The steps of a run that are not calls. */
  function WithoutCalls(steps: seq<Step>): seq<Step> {
    if steps == [] then []
    else (if steps[0].SetCookies? then [] else [steps[0]]) + WithoutCalls(steps[1..])
  }

  /** Calls made while one is in progress are lost: leaving them all out is a run with the same end. */
  lemma {:induction false} CallsInProgressIgnored(h: Helper, steps: seq<Step>)
    requires InProgress(h, steps)
    ensures InProgress(h, WithoutCalls(steps))
    ensures End(h, WithoutCalls(steps)) == End(h, steps)
    ensures Replied(WithoutCalls(steps)) == Replied(steps)
    decreases |steps|
  {
    if steps != [] {
      CallsInProgressIgnored(After(h, steps[0]), steps[1..]);
      StepInProgress(h, steps[0]);
      if steps[0].SetCookies? {
        assert WithoutCalls(steps) == WithoutCalls(steps[1..]);
      } else {
        assert WithoutCalls(steps)[1..] == WithoutCalls(steps[1..]);
      }
    }
  }

  /** While a call is in progress the named cookies gather; the signal goes out with the last reply and carries
      everything gathered. */
  lemma {:induction false} FailuresGather(h: Helper, steps: seq<Step>)
    requires InProgress(h, steps)
    ensures
      var e := End(h, steps);
      && e.failed == h.failed + Named(h, steps)
      && e.requests == h.requests
      && (e.pending == map[] && steps != [] ==> e.sent != [] && e.sent[|e.sent| - 1] == e.failed)
    decreases |steps|
  {
    if steps != [] {
      var h1 := After(h, steps[0]);
      StepInProgress(h, steps[0]);
      FailuresGather(h1, steps[1..]);
      if steps[0].Reply? {
        var named := CookiesWithDomain(steps[0].named, h.pending[steps[0].id]);
        assert h.failed + named + Named(h1, steps[1..]) == h.failed + (named + Named(h1, steps[1..]));
      }
    }
  }

  /** Each reply settles one request, and each settled request had one reply. */
  lemma {:induction false} RepliesSettle(h: Helper, steps: seq<Step>)
    requires InProgress(h, steps)
    ensures
      var e := End(h, steps);
      && (forall id :: id in h.pending <==> id in e.pending || id in Replied(steps))
      && (forall id :: id in e.pending ==> id !in Replied(steps))
      && Distinct(Replied(steps))
    decreases |steps|
  {
    if steps != [] {
      var h1 := After(h, steps[0]);
      StepInProgress(h, steps[0]);
      RepliesSettle(h1, steps[1..]);
      if steps[0].Reply? {
        var rest := Replied(steps[1..]);
        assert steps[0].id !in h1.pending;
        assert steps[0].id !in rest;
        assert Replied(steps) == [steps[0].id] + rest;
      }
    }
  }

  /** The requests of an accepted call are exactly the accepted answers for its hosts. */
  lemma AcceptedIds(h: Helper, cookies: seq<Cookie>, answers: map<string, int>)
    requires Accepts(h) && cookies != [] && Possible(h, SetCookies(cookies, answers))
    ensures forall id :: id in AfterSetCookies(h, cookies, answers).pending <==> AcceptedId(cookies, answers, id)
  {
    var order := SortedKeys(Hosts(cookies));
    var h0 := h.(failed := []);
    HostsInOrder(cookies);
    AcceptedArePending(h0, cookies, order, answers);
    assert AfterSetCookies(h, cookies, answers).pending == Requested(h0, cookies, order, answers).pending;
    forall id ensures id in AfterSetCookies(h, cookies, answers).pending <==> AcceptedId(cookies, answers, id) {
    }
  }

  /** The backend accepted a request for one of the hosts under this id. */
  ghost predicate AcceptedId(cookies: seq<Cookie>, answers: map<string, int>, id: int) {
    id != -1 && exists host :: host in Hosts(cookies) && host in answers && answers[host] == id
  }

  /** From an accepted call to its answer, whatever is refused and however the replies come in: every accepted
      request was replied to once before the answer, and the answer is, as a multiset, the cookies of the
      refused requests and those named in the replies, each with its domain. */
  lemma AnswerIsComplete(h: Helper, cookies: seq<Cookie>, answers: map<string, int>, steps: seq<Step>)
    requires Accepts(h) && cookies != [] && Possible(h, SetCookies(cookies, answers))
    requires InProgress(AfterSetCookies(h, cookies, answers), steps)
    requires End(AfterSetCookies(h, cookies, answers), steps).pending == map[]
    ensures
      var called := AfterSetCookies(h, cookies, answers);
      var e := End(called, steps);
      && (forall id :: id in Replied(steps) <==> AcceptedId(cookies, answers, id))
      && Distinct(Replied(steps))
      && multiset(e.failed) == multiset(Refusals(cookies, answers)) + multiset(Named(called, steps))
      && (if steps == [] then e.queued == h.queued + [e.failed] else e.sent != [] && e.sent[|e.sent| - 1] == e.failed)
  {
    var order := SortedKeys(Hosts(cookies));
    var h0 := h.(failed := []);
    var called := AfterSetCookies(h, cookies, answers);
    HostsInOrder(cookies);
    OneRequestPerHost(h0, cookies, order, answers);
    RefusedFail(h0, cookies, order, answers);
    AcceptedIds(h, cookies, answers);
    FailuresGather(called, steps);
    RepliesSettle(called, steps);
  }

  /** A reply that names cookies of its request reports cookies of the call, unchanged. */
  lemma {:induction false} NamedAreOriginal(cookies: seq<Cookie>, host: string, named: seq<Cookie>)
    requires forall c :: c in named ==> c in ForHost(cookies, host)
    ensures forall c :: c in CookiesWithDomain(named, host) ==> c in cookies && HostOf(c) == host
  {
    RestoredGroup(cookies, host);
    OfHostMembers(cookies, host);
    forall c | c in CookiesWithDomain(named, host) ensures c in OfHost(cookies, host) {
      var i :| 0 <= i < |named| && WithDomain(named[i], host) == c;
      assert named[i] in named;
      var k :| 0 <= k < |ForHost(cookies, host)| && ForHost(cookies, host)[k] == named[i];
      assert CookiesWithDomain(ForHost(cookies, host), host)[k] == c;
    }
  }

  lemma {:induction false} OfHostMembers(cookies: seq<Cookie>, host: string)
    ensures forall c :: c in OfHost(cookies, host) <==> c in cookies && HostOf(c) == host
  {
    if cookies != [] {
      OfHostMembers(cookies[1..], host);
      assert cookies == [cookies[0]] + cookies[1..];
    }
  }
}

// The hand-off of a detected login from the page to the popup, over any number of windows.
module PopupRoute {
  import opened Common

  datatype Request = Request(tabId: int, token: string, deadline: int)

  // An open that has stored its request and waits for the popup.
  datatype Opening = Opening(window: int, token: string)

  // What has happened, for each request; it is lost when the removal of a consume took effect but
  // rejected.
  datatype Event =
    | Placed(window: int, request: Request)
    | Withdrawn(token: string)
    | Lost(token: string)
    | Consumed(window: int, request: Request, activeTab: int, now: int, detected: bool)

  datatype State = State(requests: map<int, Request>, openings: seq<Opening>, events: seq<Event>, tokens: set<string>)

  const INITIAL := State(map[], [], [], {})

  // Steps under the request lock. A storage call that rejects may have been applied; an open whose
  // write rejects throws and withdraws nothing.
  datatype Step =
    | Place(window: int, tabId: int, token: string, deadline: int, now: int, ok: bool, applied: bool)
    | Withdraw(index: nat, ok: bool, applied: bool)
    | Consume(active: Option<(int, int)>, now: int, ok: bool, applied: bool)

  predicate IsLive(deadline: int, now: int) {
    deadline > now
  }

  predicate Detects(r: Request, activeTab: int, now: int) {
    IsLive(r.deadline, now) && r.tabId == activeTab
  }

  function Apply(s: State, step: Step): State {
    match step
    case Place(window, tabId, token, deadline, now, ok, applied) =>
      if token in s.tokens || !IsLive(deadline, now) || !(ok || applied) then s
      else
        var r := Request(tabId, token, deadline);
        State(s.requests[window := r], if ok then s.openings + [Opening(window, token)] else s.openings,
          s.events + [Placed(window, r)], s.tokens + {token})
    case Withdraw(index, ok, applied) =>
      if index >= |s.openings| || !(ok || applied) then s
      else
        var o := s.openings[index];
        if o.window in s.requests && s.requests[o.window].token == o.token
        then s.(requests := s.requests - {o.window}, events := s.events + [Withdrawn(o.token)])
        else s
    case Consume(active, now, ok, applied) =>
      if active.None? || !(ok || applied) || active.value.1 !in s.requests then s
      else
        var window, tab := active.value.1, active.value.0;
        var r := s.requests[window];
        s.(requests := s.requests - {window},
           events := s.events + [if ok then Consumed(window, r, tab, now, Detects(r, tab, now)) else Lost(r.token)])
  }

  function Run(s: State, steps: seq<Step>): State
    decreases |steps|
  {
    if steps == [] then s else Run(Apply(s, steps[0]), steps[1..])
  }

  // ------------------------------------------------------------------ the operations

  // The shared session storage, with its history.
  class PopupRequests {
    var requests: map<int, Request>
    ghost var openings: seq<Opening>
    ghost var events: seq<Event>
    ghost var tokens: set<string>

    ghost function S(): State
      reads this
    {
      State(requests, openings, events, tokens)
    }

    // The first half of openDetectedPopup. None is a throw.
    method PlaceRequest(window: int, tabId: int, token: string, deadline: int, now: int, ok: bool, applied: bool)
      returns (ready: Option<bool>)
      requires token !in tokens
      modifies this
      ensures S() == Apply(old(S()), Place(window, tabId, token, deadline, now, ok, applied))
      ensures ready == Some(true) ==> window in requests && requests[window] == Request(tabId, token, deadline)
      ensures ready == Some(true) ==> openings == old(openings) + [Opening(window, token)]
      ensures ready == if deadline <= now then Some(false) else if ok then Some(true) else None
      ensures forall w :: w != window && w in old(requests) ==> w in requests && requests[w] == old(requests)[w]
    {
      if !IsLive(deadline, now) { return Some(false); }
      if ok || applied {
        requests := requests[window := Request(tabId, token, deadline)];
        events := events + [Placed(window, Request(tabId, token, deadline))];
        tokens := tokens + {token};
      }
      if !ok { return None; }
      openings := openings + [Opening(window, token)];
      ready := Some(true);
    }

    // The second half, after any interference: a popup that did not open takes back its own request.
    method FinishOpening(ghost index: nat, window: int, token: string, shown: bool, ok: bool, applied: bool)
      returns (result: Option<bool>)
      requires index < |openings| && openings[index] == Opening(window, token)
      modifies this
      ensures shown ==> S() == old(S()) && result == Some(true)
      ensures !shown ==>
        S() == Apply(old(S()), Withdraw(index, ok, applied)) && result == if ok then Some(false) else None
      ensures result == Some(false) ==> !(window in requests && requests[window].token == token)
      ensures forall w :: w in old(requests) && old(requests)[w].token != token ==>
        w in requests && requests[w] == old(requests)[w]
    {
      if shown { return Some(true); }
      if (ok || applied) && window in requests && requests[window].token == token {
        requests := requests - {window};
        events := events + [Withdrawn(token)];
      }
      result := if ok then Some(false) else None;
    }

    // consumePopupReviewRequest: "detected", "vault" (also without an active window), or None, a throw.
    method ConsumeReviewRequest(active: Option<(int, int)>, now: int, ok: bool, applied: bool)
      returns (detected: Option<bool>)
      modifies this
      ensures S() == Apply(old(S()), Consume(active, now, ok, applied))
      ensures detected.Some? && active.Some? ==> active.value.1 !in requests
      ensures detected == Some(true) <==>
        && ok && active.Some? && active.value.1 in old(requests)
        && old(requests)[active.value.1].deadline > now && old(requests)[active.value.1].tabId == active.value.0
      ensures forall w :: w in old(requests) && (active.None? || w != active.value.1) ==>
        w in requests && requests[w] == old(requests)[w]
      ensures detected.None? <==> !ok
    {
      if active.None? { return if ok then Some(false) else None; }
      var window := active.value.1;
      if window !in requests { return if ok then Some(false) else None; }
      var request := requests[window];
      if ok || applied {
        requests := requests - {window};
        events := events + [if ok then Consumed(window, request, active.value.0, now, Detects(request, active.value.0, now))
          else Lost(request.token)];
      }
      detected := if ok then Some(IsLive(request.deadline, now) && request.tabId == active.value.0) else None;
    }
  }

  // ------------------------------------------------------------------ whole runs

  predicate Ends(e: Event, token: string) {
    match e
    case Placed(_, _) => false
    case Withdrawn(t) => t == token
    case Lost(t) => t == token
    case Consumed(_, r, _, _, _) => r.token == token
  }

  predicate Places(e: Event, window: int, r: Request) {
    e == Placed(window, r)
  }

  // A request is withdrawn, consumed or lost at most once, after it was placed, and not while pending.
  ghost predicate EndsOnce(s: State) {
    && (forall i, j, token :: 0 <= i < j < |s.events| && Ends(s.events[i], token) ==> !Ends(s.events[j], token))
    && (forall i, token :: 0 <= i < |s.events| && Ends(s.events[i], token) ==> token in s.tokens)
    && (forall w, i :: w in s.requests && 0 <= i < |s.events| ==> !Ends(s.events[i], s.requests[w].token))
  }

  ghost predicate PendingWasPlaced(s: State) {
    && (forall w :: w in s.requests ==> s.requests[w].token in s.tokens && Placed(w, s.requests[w]) in s.events)
    && (forall w, x :: w in s.requests && x in s.requests && s.requests[w].token == s.requests[x].token ==> w == x)
    && (forall k :: 0 <= k < |s.openings| ==> s.openings[k].token in s.tokens)
  }

  // A consumption saw a request of its own window, and was `detected` exactly when that request
  // was live and its tab was the active one.
  ghost predicate ConsumptionsAreSound(s: State) {
    forall i :: 0 <= i < |s.events| && s.events[i].Consumed? ==>
      && s.events[i].detected == Detects(s.events[i].request, s.events[i].activeTab, s.events[i].now)
      && PlacedBefore(s.events, i, s.events[i].window, s.events[i].request)
  }

  predicate PlacedBefore(events: seq<Event>, i: nat, window: int, r: Request)
    requires i <= |events|
  {
    exists j :: 0 <= j < i && Places(events[j], window, r)
  }

  lemma AppendKeepsSound(s: State, t: State, e: Event)
    requires ConsumptionsAreSound(s) && t.events == s.events + [e]
    requires e.Consumed? ==>
      e.detected == Detects(e.request, e.activeTab, e.now) && Placed(e.window, e.request) in s.events
    ensures ConsumptionsAreSound(t)
  {
    forall i | 0 <= i < |t.events| && t.events[i].Consumed?
      ensures PlacedBefore(t.events, i, t.events[i].window, t.events[i].request)
    {
      if i < |s.events| {
        var j :| 0 <= j < i && Places(s.events[j], s.events[i].window, s.events[i].request);
        assert Places(t.events[j], t.events[i].window, t.events[i].request);
      } else {
        var j :| 0 <= j < |s.events| && s.events[j] == Placed(e.window, e.request);
        assert Places(t.events[j], t.events[i].window, t.events[i].request);
      }
    }
  }

  ghost predicate Inv(s: State) {
    EndsOnce(s) && PendingWasPlaced(s) && ConsumptionsAreSound(s)
  }

  lemma PlaceHolds(s: State, step: Step)
    requires Inv(s) && step.Place?
    ensures Inv(Apply(s, step))
  {
    var t := Apply(s, step);
    if t != s { AppendKeepsSound(s, t, t.events[|s.events|]); }
    hide ConsumptionsAreSound;
  }

  lemma WithdrawHolds(s: State, step: Step)
    requires Inv(s) && step.Withdraw?
    ensures Inv(Apply(s, step))
  {
    var t := Apply(s, step);
    if t != s { AppendKeepsSound(s, t, t.events[|s.events|]); }
    hide ConsumptionsAreSound;
  }

  lemma ConsumeHolds(s: State, step: Step)
    requires Inv(s) && step.Consume?
    ensures Inv(Apply(s, step))
  {
    var t := Apply(s, step);
    if t != s { AppendKeepsSound(s, t, t.events[|s.events|]); }
    hide ConsumptionsAreSound;
  }

  lemma {:induction false} RunHolds(s: State, steps: seq<Step>)
    requires Inv(s)
    ensures Inv(Run(s, steps))
    decreases |steps|
  {
    hide Inv, Apply;
    if steps != [] {
      match steps[0] {
        case Place(_, _, _, _, _, _, _) => PlaceHolds(s, steps[0]);
        case Withdraw(_, _, _) => WithdrawHolds(s, steps[0]);
        case Consume(_, _, _, _) => ConsumeHolds(s, steps[0]);
      }
      RunHolds(Apply(s, steps[0]), steps[1..]);
    }
  }

  // In every interleaving of opens and consumes, each request is consumed at most once, and never
  // after it was withdrawn or lost.
  lemma ConsumedAtMostOnce(steps: seq<Step>, i: nat, j: nat, token: string)
    ensures var e := Run(INITIAL, steps).events;
      i < |e| && j < |e| && Ends(e[i], token) && Ends(e[j], token) ==> i == j
  {
    RunHolds(INITIAL, steps);
    hide Run, Ends;
  }

  // A consumption sees a request that was placed in this very window, and is `detected` exactly
  // when that request is live and for the tab that is active in it.
  lemma DetectedIsLiveAndActive(steps: seq<Step>, i: nat)
    ensures var e := Run(INITIAL, steps).events;
      i < |e| && e[i].Consumed? ==>
        && (e[i].detected <==> e[i].request.deadline > e[i].now && e[i].request.tabId == e[i].activeTab)
        && PlacedBefore(e, i, e[i].window, e[i].request)
  {
    RunHolds(INITIAL, steps);
    hide Run, EndsOnce, PendingWasPlaced;
  }

  // A failed open withdraws its own request or none: every other pending request stays.
  lemma WithdrawsOnlyItsOwn(steps: seq<Step>, index: nat, ok: bool, applied: bool, w: int)
    ensures var s := Run(INITIAL, steps);
      index < |s.openings| && w in s.requests && s.requests[w].token != s.openings[index].token ==>
        var t := Apply(s, Withdraw(index, ok, applied));
        w in t.requests && t.requests[w] == s.requests[w]
  {
    hide Run;
  }
}

/** The multi-person approval service of internal/application/approval/service.go. */
module Approval {

  datatype Status = Pending | Approved | Rejected | Expired

  datatype Request = Request(id: string, requestedBy: string, requiredApprovals: int, status: Status, expiresAt: int)

  datatype Decision = Decision(actorId: string, approved: bool)

  datatype Refusal = InvalidRequest | RequestExists | NotFound | Terminal | RequestExpired | OwnRequest | AlreadyDecided

  datatype Outcome = Done(request: Request) | Refused(reason: Refusal)

  datatype State = State(requests: map<string, Request>, decisions: map<string, seq<Decision>>)

  const EMPTY: State := State(map[], map[])

  function DecisionsOf(s: State, id: string): seq<Decision> {
    if id in s.decisions then s.decisions[id] else []
  }

  function Approvals(ds: seq<Decision>): (n: nat)
    ensures n <= |ds|
  {
    if ds == [] then 0 else Approvals(ds[..|ds| - 1]) + if ds[|ds| - 1].approved then 1 else 0
  }

  predicate HasDecided(ds: seq<Decision>, actor: string) {
    exists i :: 0 <= i < |ds| && ds[i].actorId == actor
  }

  function CreateResult(s: State, r: Request): (State, Outcome) {
    if r.id == "" || r.requestedBy == "" || r.requiredApprovals < 1 then (s, Refused(InvalidRequest))
    else if r.id in s.requests then (s, Refused(RequestExists))
    else (s.(requests := s.requests[r.id := r.(status := Pending)]), Done(r.(status := Pending)))
  }

  function DecideResult(s: State, id: string, d: Decision, now: int): (State, Outcome) {
    if id !in s.requests then (s, Refused(NotFound))
    else
      var r := s.requests[id];
      if r.status != Pending then (s, Refused(Terminal))
      else if r.expiresAt < now then (s.(requests := s.requests[id := r.(status := Expired)]), Refused(RequestExpired))
      else if d.actorId == r.requestedBy then (s, Refused(OwnRequest))
      else if HasDecided(DecisionsOf(s, id), d.actorId) then (s, Refused(AlreadyDecided))
      else
        var ds := DecisionsOf(s, id) + [d];
        var r' := r.(status := if !d.approved then Rejected
                               else if Approvals(ds) >= r.requiredApprovals then Approved else Pending);
        (State(s.requests[id := r'], s.decisions[id := ds]), Done(r'))
  }

  class Service {
    var requests: map<string, Request>
    var decisions: map<string, seq<Decision>>

    constructor ()
      ensures State(requests, decisions) == EMPTY
    {
      requests, decisions := map[], map[];
    }

    method Create(request: Request) returns (r: Outcome)
      modifies this
      ensures (State(requests, decisions), r) == CreateResult(old(State(requests, decisions)), request)
    {
      if request.id == "" || request.requestedBy == "" || request.requiredApprovals < 1 {
        return Refused(InvalidRequest);
      }
      if request.id in requests {
        return Refused(RequestExists);
      }
      var pending := request.(status := Pending);
      requests := requests[request.id := pending];
      return Done(pending);
    }

    method Decide(id: string, decision: Decision, now: int) returns (r: Outcome)
      modifies this
      ensures (State(requests, decisions), r) == DecideResult(old(State(requests, decisions)), id, decision, now)
    {
      if id !in requests {
        return Refused(NotFound);
      }
      var request := requests[id];
      if request.status != Pending {
        return Refused(Terminal);
      }
      if request.expiresAt < now {
        request := request.(status := Expired);
        requests := requests[id := request];
        return Refused(RequestExpired);
      }
      if decision.actorId == request.requestedBy {
        return Refused(OwnRequest);
      }
      var ds := if id in decisions then decisions[id] else [];
      for i := 0 to |ds|
        invariant forall j :: 0 <= j < i ==> ds[j].actorId != decision.actorId
      {
        if ds[i].actorId == decision.actorId {
          return Refused(AlreadyDecided);
        }
      }
      ds := ds + [decision];
      decisions := decisions[id := ds];
      if !decision.approved {
        request := request.(status := Rejected);
      } else {
        var approved := Count(ds);
        if approved >= request.requiredApprovals {
          request := request.(status := Approved);
        }
      }
      requests := requests[id := request];
      return Done(request);
    }
  }

  /** The counting loop of Decide. */
  method Count(ds: seq<Decision>) returns (n: nat)
    ensures n == Approvals(ds)
  {
    n := 0;
    for i := 0 to |ds|
      invariant n == Approvals(ds[..i])
    {
      assert ds[..i + 1][..i] == ds[..i];
      if ds[i].approved {
        n := n + 1;
      }
    }
    assert ds[..|ds|] == ds;
  }

  // ----- what every run keeps

  predicate AllApprove(ds: seq<Decision>) {
    forall i :: 0 <= i < |ds| ==> ds[i].approved
  }

  /** The deciders are distinct and none is the requester; the status says how many approved and that none rejected. */
  predicate Sound(r: Request, ds: seq<Decision>) {
    && r.requiredApprovals >= 1
    && (forall i, j :: 0 <= i < j < |ds| ==> ds[i].actorId != ds[j].actorId)
    && (forall i :: 0 <= i < |ds| ==> ds[i].actorId != r.requestedBy)
    && match r.status
       case Approved => AllApprove(ds) && |ds| == r.requiredApprovals
       case Pending => AllApprove(ds) && |ds| < r.requiredApprovals
       case Expired => AllApprove(ds) && |ds| < r.requiredApprovals
       case Rejected => ds != [] && !ds[|ds| - 1].approved && AllApprove(ds[..|ds| - 1]) && |ds| <= r.requiredApprovals
  }

  ghost predicate Inv(s: State) {
    && s.decisions.Keys <= s.requests.Keys
    && forall id :: id in s.requests ==> Sound(s.requests[id], DecisionsOf(s, id))
  }

  lemma {:induction false} ApprovalsOfAll(ds: seq<Decision>)
    ensures AllApprove(ds) <==> Approvals(ds) == |ds|
  {
    if ds != [] {
      ApprovalsOfAll(ds[..|ds| - 1]);
      assert forall i :: 0 <= i < |ds| - 1 ==> ds[i] == ds[..|ds| - 1][i];
    }
  }

  datatype Call = CreateCall(request: Request) | DecideCall(id: string, decision: Decision, now: int)

  function After(s: State, c: Call): State {
    match c
    case CreateCall(r) => CreateResult(s, r).0
    case DecideCall(id, d, now) => DecideResult(s, id, d, now).0
  }

  function Judged(r: Request, ds: seq<Decision>, d: Decision): Request {
    r.(status := if !d.approved then Rejected
                   else if Approvals(ds + [d]) >= r.requiredApprovals then Approved else Pending)
  }

  /** A decision of a new actor who is not the requester keeps a pending request sound. */
  lemma JudgedSound(r: Request, ds: seq<Decision>, d: Decision)
    requires Sound(r, ds) && r.status == Pending && d.actorId != r.requestedBy && !HasDecided(ds, d.actorId)
    ensures Sound(Judged(r, ds, d), ds + [d])
  {
    ApprovalsOfAll(ds);
    ApprovalsOfAll(ds + [d]);
    assert (ds + [d])[..|ds|] == ds;
  }

  /** What a decision makes of one request and its decisions. */
  function Next(r: Request, ds: seq<Decision>, d: Decision, now: int): (Request, seq<Decision>) {
    if r.status != Pending then (r, ds)
    else if r.expiresAt < now then (r.(status := Expired), ds)
    else if d.actorId == r.requestedBy || HasDecided(ds, d.actorId) then (r, ds)
    else (Judged(r, ds, d), ds + [d])
  }

  lemma DecideIsNext(s: State, id: string, d: Decision, now: int)
    requires id in s.requests
    ensures var s' := DecideResult(s, id, d, now).0;
            id in s'.requests
            && (s'.requests[id], DecisionsOf(s', id)) == Next(s.requests[id], DecisionsOf(s, id), d, now)
  {
  }

  lemma NextSound(r: Request, ds: seq<Decision>, d: Decision, now: int)
    requires Sound(r, ds)
    ensures var (r', ds') := Next(r, ds, d, now); Sound(r', ds')
  {
    if r.status == Pending && r.expiresAt >= now && d.actorId != r.requestedBy && !HasDecided(ds, d.actorId) {
      JudgedSound(r, ds, d);
    }
  }

  /** A decision touches only its own request, and not once that is terminal. */
  lemma DecideFrame(s: State, id: string, d: Decision, now: int, other: string)
    requires other in s.requests && (other != id || s.requests[other].status != Pending)
    ensures var s' := DecideResult(s, id, d, now).0;
            other in s'.requests && s'.requests[other] == s.requests[other]
            && DecisionsOf(s', other) == DecisionsOf(s, other)
  {
  }

  lemma DecideKeys(s: State, id: string, d: Decision, now: int)
    requires s.decisions.Keys <= s.requests.Keys
    ensures DecideResult(s, id, d, now).0.requests.Keys == s.requests.Keys
    ensures DecideResult(s, id, d, now).0.decisions.Keys <= s.requests.Keys
  {
  }

  lemma DecideKeeps(s: State, id: string, d: Decision, now: int)
    requires Inv(s)
    ensures Inv(DecideResult(s, id, d, now).0)
  {
    var s' := DecideResult(s, id, d, now).0;
    DecideKeys(s, id, d, now);
    forall other | other in s'.requests ensures Sound(s'.requests[other], DecisionsOf(s', other)) {
      if other == id {
        DecideIsNext(s, id, d, now);
        NextSound(s.requests[id], DecisionsOf(s, id), d, now);
      } else {
        DecideFrame(s, id, d, now, other);
      }
    }
  }

  lemma CreateKeeps(s: State, r: Request)
    requires Inv(s)
    ensures Inv(CreateResult(s, r).0)
    ensures forall id :: id in s.requests ==>
              id in CreateResult(s, r).0.requests && CreateResult(s, r).0.requests[id] == s.requests[id]
  {
    var s' := CreateResult(s, r).0;
    forall id | id in s'.requests ensures Sound(s'.requests[id], DecisionsOf(s', id)) {
      if id in s.requests {
        assert Sound(s.requests[id], DecisionsOf(s, id));
      }
    }
  }

  lemma CallKeeps(s: State, c: Call)
    requires Inv(s)
    ensures Inv(After(s, c))
  {
    match c
    case CreateCall(r) => CreateKeeps(s, r);
    case DecideCall(id, d, now) => DecideKeeps(s, id, d, now);
  }

  lemma CallKeepsTerminal(s: State, c: Call, id: string)
    requires Inv(s) && id in s.requests && s.requests[id].status != Pending
    ensures id in After(s, c).requests && After(s, c).requests[id] == s.requests[id]
    ensures DecisionsOf(After(s, c), id) == DecisionsOf(s, id)
  {
    match c
    case CreateCall(r) => CreateKeeps(s, r);
    case DecideCall(id', d, now) => DecideFrame(s, id', d, now, id);
  }

  function Run(calls: seq<Call>): State {
    if calls == [] then EMPTY else After(Run(calls[..|calls| - 1]), calls[|calls| - 1])
  }

  /** Over every run of Create and Decide. */
  lemma {:induction false} RunSound(calls: seq<Call>)
    ensures Inv(Run(calls))
  {
    if calls != [] {
      RunSound(calls[..|calls| - 1]);
      CallKeeps(Run(calls[..|calls| - 1]), calls[|calls| - 1]);
    }
  }

  /** A terminal status, once reached, never changes again, nor do its decisions. */
  lemma {:induction false} TerminalForever(calls: seq<Call>, n: nat, id: string)
    requires n <= |calls| && id in Run(calls[..n]).requests && Run(calls[..n]).requests[id].status != Pending
    ensures id in Run(calls).requests && Run(calls).requests[id] == Run(calls[..n]).requests[id]
    ensures DecisionsOf(Run(calls), id) == DecisionsOf(Run(calls[..n]), id)
    decreases |calls|
  {
    if n == |calls| {
      assert calls[..n] == calls;
    } else {
      var front := calls[..|calls| - 1];
      assert front[..n] == calls[..n];
      TerminalForever(front, n, id);
      RunSound(front);
      CallKeepsTerminal(Run(front), calls[|calls| - 1], id);
    }
  }

  // ----- what the callers are told

  /** The request is known, pending and in time, and the actor is neither its requester nor among its deciders. */
  predicate MayDecide(s: State, id: string, actor: string, now: int) {
    && id in s.requests && s.requests[id].status == Pending && now <= s.requests[id].expiresAt
    && s.requests[id].requestedBy != actor
    && forall d :: d in DecisionsOf(s, id) ==> d.actorId != actor
  }

  /** A decision is taken exactly when the actor may decide. Then it is stored after the earlier ones and the answer is
      the request as stored: rejected by a rejection, approved by the last of the required approvals, else still
      pending. Otherwise no decision is stored, and no request changes except one that is found to have expired. */
  predicate Answered(s: State, id: string, d: Decision, now: int, s': State, answer: Outcome) {
    && (answer.Done? <==> MayDecide(s, id, d.actorId, now))
    && (answer.Done? ==>
          && s'.requests == s.requests[id := answer.request]
          && s'.decisions == s.decisions[id := DecisionsOf(s, id) + [d]]
          && answer.request == s.requests[id].(status := Verdict(s.requests[id], |DecisionsOf(s, id)|, d)))
    && (answer.Refused? ==>
          && s'.decisions == s.decisions
          && s'.requests == if Overdue(s, id, now) then s.requests[id := s.requests[id].(status := Expired)]
                            else s.requests)
  }

  lemma AnswersAt(s: State, id: string, d: Decision, now: int)
    requires id in s.requests ==> Sound(s.requests[id], DecisionsOf(s, id))
    ensures var (s', answer) := DecideResult(s, id, d, now); Answered(s, id, d, now, s', answer)
  {
    var ds := DecisionsOf(s, id);
    if id in s.requests {
      SeenDecider(ds, d.actorId);
      if s.requests[id].status == Pending && d.approved {
        ApprovalsOfAll(ds + [d]);
      }
    }
  }

  /** So it is in every reachable state. */
  lemma DecideAnswers(calls: seq<Call>, id: string, d: Decision, now: int)
    ensures var (s', answer) := DecideResult(Run(calls), id, d, now); Answered(Run(calls), id, d, now, s', answer)
  {
    RunSound(calls);
    AnswersAt(Run(calls), id, d, now);
  }

  /** The status after one more decision, when `before` approvals were given. */
  function Verdict(r: Request, before: nat, d: Decision): Status {
    if !d.approved then Rejected else if before + 1 == r.requiredApprovals then Approved else Pending
  }

  predicate Overdue(s: State, id: string, now: int) {
    id in s.requests && s.requests[id].status == Pending && s.requests[id].expiresAt < now
  }

  lemma SeenDecider(ds: seq<Decision>, actor: string)
    ensures HasDecided(ds, actor) <==> exists d :: d in ds && d.actorId == actor
  {
    if HasDecided(ds, actor) {
      var i :| 0 <= i < |ds| && ds[i].actorId == actor;
      assert ds[i] in ds;
    }
    if d :| d in ds && d.actorId == actor {
      var i :| 0 <= i < |ds| && ds[i] == d;
      assert ds[i].actorId == actor;
    }
  }

  /** A request is created exactly when it is complete and new; then it is stored as pending, and
      else nothing changes. */
  lemma CreateAnswers(s: State, r: Request)
    ensures var (s', answer) := CreateResult(s, r);
            && (answer.Done? <==> r.id != "" && r.requestedBy != "" && r.requiredApprovals >= 1 && r.id !in s.requests)
            && (answer.Done? ==> s' == State(s.requests[r.id := answer.request], s.decisions)
                                 && answer.request == r.(status := Pending))
            && (answer.Refused? ==> s' == s)
  {
  }

  function Approvers(id: string, actors: seq<string>, now: int): (calls: seq<Call>)
    ensures |calls| == |actors|
  {
    seq(|actors|, i requires 0 <= i < |actors| => DecideCall(id, Decision(actors[i], true), now))
  }

  predicate Distinct(actors: seq<string>) {
    forall i, j :: 0 <= i < j < |actors| ==> actors[i] != actors[j]
  }

  predicate DecidedBy(ds: seq<Decision>, actors: seq<string>) {
    |ds| == |actors| && forall i :: 0 <= i < |ds| ==> ds[i] == Decision(actors[i], true)
  }

  /** Exactly these approved, and the status counts them. */
  predicate ApprovedBy(s: State, id: string, r: Request, actors: seq<string>) {
    && id in s.requests && DecidedBy(DecisionsOf(s, id), actors)
    && s.requests[id] == r.(status := if |actors| == r.requiredApprovals then Approved else Pending)
  }

  lemma NextApproves(r: Request, ds: seq<Decision>, actors: seq<string>, actor: string, now: int)
    requires DecidedBy(ds, actors) && actor !in actors && actor != r.requestedBy
    requires r.status == Pending && now <= r.expiresAt
    ensures var d := Decision(actor, true);
            && Next(r, ds, d, now)
               == (r.(status := if |ds| + 1 >= r.requiredApprovals then Approved else Pending), ds + [d])
            && DecidedBy(ds + [d], actors + [actor])
  {
    var d := Decision(actor, true);
    assert AllApprove(ds + [d]);
    ApprovalsOfAll(ds + [d]);
    assert !HasDecided(ds, actor);
  }

  lemma OneMoreApproves(s: State, id: string, r: Request, actors: seq<string>, actor: string, now: int)
    requires ApprovedBy(s, id, r, actors) && |actors| < r.requiredApprovals && now <= r.expiresAt
    requires actor !in actors && actor != r.requestedBy
    ensures ApprovedBy(DecideResult(s, id, Decision(actor, true), now).0, id, r, actors + [actor])
  {
    NextApproves(s.requests[id], DecisionsOf(s, id), actors, actor, now);
    DecideIsNext(s, id, Decision(actor, true), now);
  }

  /** The state after these people approved in turn. */
  function AllApproved(s: State, id: string, actors: seq<string>, now: int): State {
    if actors == [] then s
    else DecideResult(AllApproved(s, id, actors[..|actors| - 1], now), id, Decision(actors[|actors| - 1], true), now).0
  }

  lemma {:induction false} AllCounted(s: State, id: string, r: Request, actors: seq<string>, now: int)
    requires ApprovedBy(s, id, r, []) && r.requiredApprovals >= 1
    requires now <= r.expiresAt && r.requestedBy !in actors && |actors| <= r.requiredApprovals && Distinct(actors)
    ensures ApprovedBy(AllApproved(s, id, actors, now), id, r, actors)
  {
    if actors != [] {
      var front, last := actors[..|actors| - 1], actors[|actors| - 1];
      AllCounted(s, id, r, front, now);
      OneMoreApproves(AllApproved(s, id, front, now), id, r, front, last, now);
      assert front + [last] == actors;
    }
  }

  lemma {:induction false} RunApprovers(calls: seq<Call>, id: string, actors: seq<string>, now: int)
    ensures Run(calls + Approvers(id, actors, now)) == AllApproved(Run(calls), id, actors, now)
    decreases |actors|
  {
    if actors == [] {
      assert calls + Approvers(id, actors, now) == calls;
    } else {
      var front, d := actors[..|actors| - 1], Decision(actors[|actors| - 1], true);
      var before := calls + Approvers(id, front, now);
      RunApprovers(calls, id, front, now);
      assert calls + Approvers(id, actors, now) == before + [DecideCall(id, d, now)];
      RunDecides(before, id, d, now);
    }
  }

  lemma RunDecides(calls: seq<Call>, id: string, d: Decision, now: int)
    ensures Run(calls + [DecideCall(id, d, now)]) == DecideResult(Run(calls), id, d, now).0
  {
    assert (calls + [DecideCall(id, d, now)])[..|calls|] == calls;
  }

  /** A new request is approved by as many different people, none of them its requester, as it requires, if they
      approve in time, and by no fewer. */
  lemma EnoughApprove(calls: seq<Call>, id: string, r: Request, actors: seq<string>, now: int)
    requires ApprovedBy(Run(calls), id, r, []) && r.requiredApprovals >= 1
    requires now <= r.expiresAt && r.requestedBy !in actors && |actors| <= r.requiredApprovals && Distinct(actors)
    ensures ApprovedBy(Run(calls + Approvers(id, actors, now)), id, r, actors)
  {
    RunApprovers(calls, id, actors, now);
    AllCounted(Run(calls), id, r, actors, now);
  }
}

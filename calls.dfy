/** The call-history collection: call records, Mongo-style filters on them,
    and `updateOne`, which rewrites at most the first matching record. */
module Calls {
  import opened Base

  /** The schema's enum lists initiated, accepted and ended; the handlers
      also write rejected, and the model follows the handlers. */
  datatype Status = Initiated | Accepted | Rejected | Ended

  datatype Call = Call(
    caller: UserId,
    recipient: UserId,
    status: Status,
    startedAt: Time,
    endedAt: Option<Time>,
    rejectedAt: Option<Time>)

  /** `Call.create({caller, recipient})` with the schema's defaults: status
      initiated and startedAt the creation time. */
  function NewCall(caller: UserId, recipient: UserId, now: Time): (c: Call)
    ensures c.caller == caller && c.recipient == recipient
    ensures c.status == Initiated && c.endedAt.None? && c.rejectedAt.None?
  {
    Call(caller, recipient, Initiated, now, None, None)
  }

  /** The two filter shapes the handlers use: a directed pair, or an
      unordered pair (`$or` of both directions); each with the required
      prior status. */
  datatype Filter =
    | Directed(caller: UserId, recipient: UserId, status: Status)
    | EitherWay(a: UserId, b: UserId, status: Status)

  predicate Matches(c: Call, f: Filter) {
    match f
    case Directed(caller, recipient, st) =>
      c.caller == caller && c.recipient == recipient && c.status == st
    case EitherWay(a, b, st) =>
      ((c.caller == a && c.recipient == b) || (c.caller == b && c.recipient == a)) && c.status == st
  }

  /** The `$set` documents of the three transitions. */
  datatype Update = Accept(at: Time) | Reject(at: Time) | End(at: Time)

  function Apply(c: Call, u: Update): (r: Call)
    ensures r.caller == c.caller && r.recipient == c.recipient
    ensures u.Accept? ==> r.status == Accepted && r.startedAt == u.at && r.endedAt == c.endedAt && r.rejectedAt == c.rejectedAt
    ensures u.Reject? ==> r.status == Rejected && r.rejectedAt == Some(u.at) && r.startedAt == c.startedAt && r.endedAt == c.endedAt
    ensures u.End? ==> r.status == Ended && r.endedAt == Some(u.at) && r.startedAt == c.startedAt && r.rejectedAt == c.rejectedAt
  {
    match u
    case Accept(t) => c.(status := Accepted, startedAt := t)
    case Reject(t) => c.(status := Rejected, rejectedAt := Some(t))
    case End(t) => c.(status := Ended, endedAt := Some(t))
  }

  /** The position of the first record at or after `from` that matches f. */
  function FirstMatchFrom(calls: seq<Call>, f: Filter, from: nat): (r: Option<nat>)
    requires from <= |calls|
    ensures r.Some? ==> from <= r.value < |calls| && Matches(calls[r.value], f)
    ensures r.Some? ==> forall j :: from <= j < r.value ==> !Matches(calls[j], f)
    ensures r.None? ==> forall j :: from <= j < |calls| ==> !Matches(calls[j], f)
    decreases |calls| - from
  {
    if from == |calls| then None
    else if Matches(calls[from], f) then Some(from)
    else FirstMatchFrom(calls, f, from + 1)
  }

  /** `updateOne(filter, update)`: the first matching record is rewritten,
      every other record is left as it was. */
  function UpdateFirst(calls: seq<Call>, f: Filter, u: Update): (r: seq<Call>)
    ensures |r| == |calls|
    ensures forall i :: 0 <= i < |calls| && r[i] != calls[i] ==> Matches(calls[i], f) && r[i] == Apply(calls[i], u)
    ensures forall i, j :: 0 <= i < j < |calls| && r[i] != calls[i] ==> r[j] == calls[j]
    ensures forall i :: 0 <= i < |calls| && r[i] != calls[i] ==> forall j :: 0 <= j < i ==> !Matches(calls[j], f)
    ensures forall i :: 0 <= i < |calls| && Matches(calls[i], f) && (forall j :: 0 <= j < i ==> !Matches(calls[j], f))
              ==> r[i] == Apply(calls[i], u)
  {
    match FirstMatchFrom(calls, f, 0)
    case None => calls
    case Some(i) => calls[i := Apply(calls[i], u)]
  }

  /** Rejected and ended are terminal. */
  predicate IsFinal(s: Status) {
    s == Rejected || s == Ended
  }

  /** The lifecycle: initiated to accepted or rejected, accepted to ended. */
  predicate Step(from: Status, to: Status) {
    from == to
    || (from == Initiated && (to == Accepted || to == Rejected))
    || (from == Accepted && to == Ended)
  }

  /** The filter/update pairs the handlers issue: accept and reject select
      an initiated record of a directed pair, end selects an accepted record
      of an unordered pair. */
  predicate HandlerUpdate(f: Filter, u: Update) {
    (f.Directed? && f.status == Initiated && (u.Accept? || u.Reject?))
    || (f.EitherWay? && f.status == Accepted && u.End?)
  }

  /** Every update a handler issues moves each record along the lifecycle
      and never touches a rejected or ended record. */
  lemma HandlerUpdatesFollowLifecycle(calls: seq<Call>, f: Filter, u: Update)
    requires HandlerUpdate(f, u)
    ensures forall i :: 0 <= i < |calls| ==> Step(calls[i].status, UpdateFirst(calls, f, u)[i].status)
    ensures forall i :: 0 <= i < |calls| && IsFinal(calls[i].status) ==> UpdateFirst(calls, f, u)[i] == calls[i]
  {
    var r := UpdateFirst(calls, f, u);
    forall i | 0 <= i < |calls|
      ensures Step(calls[i].status, r[i].status)
      ensures IsFinal(calls[i].status) ==> r[i] == calls[i]
    {
      if r[i] != calls[i] {
        assert Matches(calls[i], f);
      }
    }
  }

  /** The accept filter is directed: a call placed the other way round is
      never accepted by it. */
  lemma AcceptIsDirected(calls: seq<Call>, callerId: UserId, recipientId: UserId, at: Time, i: nat)
    requires i < |calls| && callerId != recipientId
    requires calls[i].caller == recipientId && calls[i].recipient == callerId
    ensures UpdateFirst(calls, Directed(callerId, recipientId, Initiated), Accept(at))[i] == calls[i]
  {
  }

  /** The number of initiated records from caller to recipient. */
  function CountInitiated(calls: seq<Call>, caller: UserId, recipient: UserId): nat
  {
    if calls == [] then 0
    else
      var last := if Matches(calls[|calls| - 1], Directed(caller, recipient, Initiated)) then 1 else 0;
      CountInitiated(calls[..|calls| - 1], caller, recipient) + last
  }

  /** Creating a record adds exactly one initiated record for its pair and
      no check for an open call is made, so two requests give two. */
  lemma {:induction false} RepeatedRequestsStack(calls: seq<Call>, caller: UserId, recipient: UserId, t1: Time, t2: Time)
    ensures CountInitiated(calls + [NewCall(caller, recipient, t1)], caller, recipient)
         == CountInitiated(calls, caller, recipient) + 1
    ensures CountInitiated(calls + [NewCall(caller, recipient, t1)] + [NewCall(caller, recipient, t2)], caller, recipient)
         == CountInitiated(calls, caller, recipient) + 2
  {
    var once := calls + [NewCall(caller, recipient, t1)];
    assert once[..|once| - 1] == calls;
    var twice := once + [NewCall(caller, recipient, t2)];
    assert twice[..|twice| - 1] == once;
  }

  /** An update rewrites a record only if it matched, so it can only lower
      the count of initiated records of any pair. */
  lemma {:induction false} UpdateNeverOpensCalls(calls: seq<Call>, f: Filter, u: Update, caller: UserId, recipient: UserId)
    ensures CountInitiated(UpdateFirst(calls, f, u), caller, recipient) <= CountInitiated(calls, caller, recipient)
  {
    var r := UpdateFirst(calls, f, u);
    CountPointwise(calls, r, caller, recipient);
  }

  /** If no record of b is initiated where the record of a is not, b counts
      no more initiated records than a. */
  lemma {:induction false} CountPointwise(a: seq<Call>, b: seq<Call>, caller: UserId, recipient: UserId)
    requires |a| == |b|
    requires forall i :: 0 <= i < |a| && b[i] != a[i] ==> b[i].status != Initiated
    ensures CountInitiated(b, caller, recipient) <= CountInitiated(a, caller, recipient)
  {
    if a != [] {
      CountPointwise(a[..|a| - 1], b[..|b| - 1], caller, recipient);
    }
  }

  /** The persisted call collection. */
  class CallStore {
    var calls: seq<Call>

    constructor ()
      ensures calls == []
    {
      calls := [];
    }

    /** `Call.create`: appends one initiated record. */
    method Create(caller: UserId, recipient: UserId, now: Time)
      modifies this
      ensures calls == old(calls) + [NewCall(caller, recipient, now)]
    {
      calls := calls + [NewCall(caller, recipient, now)];
    }

    /** `Call.updateOne(filter, update)`. */
    method UpdateOne(f: Filter, u: Update)
      modifies this
      ensures calls == UpdateFirst(old(calls), f, u)
    {
      calls := UpdateFirst(calls, f, u);
    }
  }
}

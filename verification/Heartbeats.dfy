/** The lease heartbeat and the pre-issue check of safe_restart.py. */
module Heartbeats {
  import opened Wrappers
  import opened JsonValues

  /** What a call may raise. `Interrupt` and `OtherBase` are not Exceptions. */
  datatype Exn = HttpError | BadJson | Other | Interrupt | OtherBase

  predicate IsException(e: Exn) {
    e != Interrupt && e != OtherBase
  }

  /** A request's answer; `body` is None when it is not JSON. */
  datatype Answer = Raises(e: Exn) | Reply(code: int, body: Option<Json>)

  // ---------------------------------------------------------------- the heartbeat

  function Field(body: Option<Json>, key: string): Json {
    if body.Some? && body.value.Obj? then Get(body.value, key) else Null
  }

  predicate LeaseActive(lease: Json) {
    lease.Obj? && Truthy(Get(lease, "active"))
  }

  /** An answer that ends the authorization: anything but a 200 with an active lease. A request that
      got no answer at all is only retried. */
  predicate Refusal(a: Answer) {
    a.Reply? && !(a.code == 200 && LeaseActive(Field(a.body, "lease")))
  }

  predicate Renewal(a: Answer) {
    a.Reply? && a.code == 200 && LeaseActive(Field(a.body, "lease"))
  }

  predicate DrainHeld(a: Answer) {
    a.Reply? && Field(a.body, "drain").Obj? && Truthy(Get(Field(a.body, "drain"), "ok"))
  }

  function CountRenewals(answers: seq<Answer>): nat {
    if answers == [] then 0
    else CountRenewals(answers[..|answers| - 1]) + (if Renewal(answers[|answers| - 1]) then 1 else 0)
  }

  /** A renewal after which the thread asks no more: a refusal, or an exception it does not catch. */
  predicate EndsThread(a: Answer) {
    Refusal(a) || (a.Raises? && a.e != HttpError)
  }

  /** How many answers the thread hears. */
  function Heard(answers: seq<Answer>, from: nat): (n: nat)
    requires from <= |answers|
    ensures from <= n <= |answers|
    ensures forall k :: from <= k < n - 1 ==> !EndsThread(answers[k])
    ensures n < |answers| ==> n > from && EndsThread(answers[n - 1])
    decreases |answers| - from
  {
    if from == |answers| then from else if EndsThread(answers[from]) then from + 1 else Heard(answers, from + 1)
  }

  /** The answer names a lease that is active. */
  predicate KeepsLease(a: Answer) {
    && a.Reply? && a.code == 200 && a.body.Some? && a.body.value.Obj?
    && "lease" in a.body.value.fields && a.body.value.fields["lease"].Obj?
    && var lease := a.body.value.fields["lease"].fields; "active" in lease && Truthy(lease["active"])
  }

  /** And says the drain was asserted again. */
  predicate KeepsDrain(a: Answer) {
    && a.Reply? && a.body.Some? && a.body.value.Obj?
    && "drain" in a.body.value.fields && a.body.value.fields["drain"].Obj?
    && var drain := a.body.value.fields["drain"].fields; "ok" in drain && Truthy(drain["ok"])
  }

  /** The thread still runs when the k-th answer comes: each before it kept the lease, or was a failure of
      the transport. */
  predicate Hears(answers: seq<Answer>, k: nat)
    requires k < |answers|
  {
    forall j :: 0 <= j < k ==> answers[j] == Raises(HttpError) || KeepsLease(answers[j])
  }

  /** No answer the thread hears takes the authorization away: each that comes back keeps the lease and,
      where a drain is required, the drain. */
  predicate NothingLost(answers: seq<Answer>, drainRequired: bool) {
    forall k :: 0 <= k < |answers| && Hears(answers, k) ==>
      answers[k].Raises? || (KeepsLease(answers[k]) && (drainRequired ==> KeepsDrain(answers[k])))
  }

  lemma HearsIsHeard(answers: seq<Answer>, k: nat)
    requires k < |answers|
    ensures Hears(answers, k) <==> k < Heard(answers, 0)
  {
    var n := Heard(answers, 0);
    assert forall j :: 0 <= j < |answers| ==>
        (EndsThread(answers[j]) <==> !(answers[j] == Raises(HttpError) || KeepsLease(answers[j])));
    assert n < |answers| ==> EndsThread(answers[n - 1]);
  }

  lemma LostIsHeard(answers: seq<Answer>, drainRequired: bool)
    ensures NothingLost(answers, drainRequired) <==>
              forall k :: 0 <= k < Heard(answers, 0) ==>
                !Refusal(answers[k]) && (drainRequired && Renewal(answers[k]) ==> DrainHeld(answers[k]))
  {
    forall k | 0 <= k < |answers| ensures Hears(answers, k) <==> k < Heard(answers, 0) {
      HearsIsHeard(answers, k);
    }
    forall k | 0 <= k < |answers|
      ensures answers[k].Raises? || (KeepsLease(answers[k]) && (drainRequired ==> KeepsDrain(answers[k])))
         <==> !Refusal(answers[k]) && (drainRequired && Renewal(answers[k]) ==> DrainHeld(answers[k]))
    {
    }
  }

  class Heartbeat {
    const drainRequired: bool
    var renewals: nat
    var lost: bool
    var drainLost: bool
    var stopped: bool

    constructor (required: bool)
      ensures drainRequired == required && renewals == 0 && !lost && !drainLost && !stopped
    {
      drainRequired, renewals, lost, drainLost, stopped := required, 0, false, false, false;
    }

    method BeatOnce(a: Answer)
      modifies this
      ensures renewals == old(renewals) + (if Renewal(a) then 1 else 0)
      ensures lost == (old(lost) || Refusal(a)) && stopped == (old(stopped) || EndsThread(a))
      ensures drainLost == (old(drainLost) || (drainRequired && Renewal(a) && !DrainHeld(a)))
    {
      if a.Raises? {
        stopped := stopped || a.e != HttpError;
        return;
      }
      var body := if a.code == 200 then a.body else None;
      var lease := Field(body, "lease");
      if a.code != 200 || !lease.Obj? || !Truthy(Get(lease, "active")) {
        lost, stopped := true, true;
        return;
      }
      renewals := renewals + 1;
      var drain := Field(body, "drain");
      if drainRequired && !(drain.Obj? && Truthy(Get(drain, "ok"))) {
        drainLost := true;
      }
    }

    /** The thread, over the answers it would get: a lost flag is never taken back. An exception it
        does not catch ends it with no flag set. */
    method Beat(answers: seq<Answer>)
      requires !lost && !drainLost && !stopped && renewals == 0
      modifies this
      ensures lost <==> exists k :: 0 <= k < Heard(answers, 0) && Refusal(answers[k])
      ensures renewals == CountRenewals(answers[..Heard(answers, 0)])
      ensures drainLost <==>
          drainRequired && exists k :: 0 <= k < Heard(answers, 0) && Renewal(answers[k]) && !DrainHeld(answers[k])
    {
      var i := 0;
      while i < |answers| && !stopped
        invariant i <= |answers| && (stopped <==> i > 0 && EndsThread(answers[i - 1]))
        invariant !stopped ==> Heard(answers, 0) == Heard(answers, i)
        invariant stopped ==> Heard(answers, 0) == i
        invariant lost <==> exists k :: 0 <= k < i && Refusal(answers[k])
        invariant renewals == CountRenewals(answers[..i])
        invariant drainLost <==>
            drainRequired && exists k :: 0 <= k < i && Renewal(answers[k]) && !DrainHeld(answers[k])
      {
        assert answers[..i + 1][..i] == answers[..i];
        BeatOnce(answers[i]);
        i := i + 1;
      }
    }

    predicate Lost()
      reads this
    {
      lost || drainLost
    }
  }

  // ---------------------------------------------------------------- the pre-issue check

  const PREISSUE_MIN_REMAINING_S := 5

  datatype Verdict = Holds | Fails | Breaks(e: Exn)

  /** The lease proves itself: readable, cleared, active, and with time left. */
  predicate LeaseProven(a: Answer) {
    && a.Reply? && a.code == 200 && a.body.Some? && a.body.value.Obj?
    && Get(a.body.value, "state") == Str("cleared") && Truthy(Get(a.body.value, "active"))
    && match Get(a.body.value, "expires_in_s")
       case Int(i) => i >= PREISSUE_MIN_REMAINING_S
       case Float(r) => r >= PREISSUE_MIN_REMAINING_S as real
       case _ => false
  }

  /** The service proves it: draining, for this very lease, with nothing in flight. The status code
      of its answer is not looked at. */
  predicate DrainProven(a: Answer, lease: string) {
    && a.Reply? && a.body.Some? && a.body.value.Obj?
    && Get(a.body.value, "draining") == Bool(true)
    && Get(a.body.value, "drain").Obj? && Get(Get(a.body.value, "drain"), "lease_id") == Str(lease)
    && EqualsInt(Get(a.body.value, "in_flight"), 0)
  }

  /** Python cannot order a text, list or object against a number. */
  predicate Unordered(j: Json) {
    Truthy(j) && (j.Str? || j.Arr? || j.Obj?)
  }

  /** The check ends in an exception it does not catch: reading the lease raises it, the lease's time left
      is no number, or a service raises it after those before it proved their drain. */
  ghost predicate CheckBreaks(leaseId: string, drainRequired: bool, urls: seq<string>, lease: Answer,
                        snaps: string -> Answer, e: Exn)
  {
    || (lease == Raises(e) && e != HttpError && e != BadJson)
    || (e == Other && lease.Reply? && lease.code == 200 && lease.body.Some? && lease.body.value.Obj?
        && Get(lease.body.value, "state") == Str("cleared") && Truthy(Get(lease.body.value, "active"))
        && (match Get(lease.body.value, "expires_in_s")
            case Str(s) => s != "" case Arr(items) => items != [] case Obj(fields) => fields != map[] case _ => false))
    || (LeaseProven(lease) && drainRequired && exists k :: DrainRaises(leaseId, urls, snaps, k, e))
  }

  predicate DrainRaises(leaseId: string, urls: seq<string>, snaps: string -> Answer, k: int, e: Exn) {
    && 0 <= k < |urls| && snaps(urls[k]) == Raises(e) && e != HttpError && e != BadJson
    && forall j :: 0 <= j < k ==> DrainProven(snaps(urls[j]), leaseId)
  }

  /** `preissue_check`; `urls` are the policy's inflight probes. */
  method PreissueCheck(leaseId: string, drainRequired: bool, urls: seq<string>, lease: Answer, snaps: string -> Answer)
    returns (v: Verdict)
    ensures v == Holds <==> LeaseProven(lease)
                            && (drainRequired ==> urls != [] && forall k :: 0 <= k < |urls| ==>
                               DrainProven(snaps(urls[k]), leaseId))
    ensures forall e :: v == Breaks(e) <==> CheckBreaks(leaseId, drainRequired, urls, lease, snaps, e)
  {
    if lease.Raises? {
      return if lease.e == HttpError || lease.e == BadJson then Fails else Breaks(lease.e);
    }
    if lease.code != 200 || lease.body.None? || !lease.body.value.Obj? { return Fails; }
    var body := lease.body.value;
    if Get(body, "state") != Str("cleared") || !Truthy(Get(body, "active")) { return Fails; }
    var left := Get(body, "expires_in_s");
    if Unordered(left) { return Breaks(Other); }
    var short := match left
                 case Int(i) => i < PREISSUE_MIN_REMAINING_S
                 case Float(r) => r < PREISSUE_MIN_REMAINING_S as real
                 case _ => true;
    if short { return Fails; }
    if !drainRequired { return Holds; }
    if urls == [] { return Fails; }
    for i := 0 to |urls|
      invariant forall k :: 0 <= k < i ==> DrainProven(snaps(urls[k]), leaseId)
    {
      var a := snaps(urls[i]);
      if a.Raises? {
        assert a.e != HttpError && a.e != BadJson ==> DrainRaises(leaseId, urls, snaps, i, a.e);
        return if a.e == HttpError || a.e == BadJson then Fails else Breaks(a.e);
      }
      if a.body.None? || !a.body.value.Obj? || Get(a.body.value, "draining") != Bool(true) { return Fails; }
      var drain := Get(a.body.value, "drain");
      if !drain.Obj? || Get(drain, "lease_id") != Str(leaseId) { return Fails; }
      if !EqualsInt(Get(a.body.value, "in_flight"), 0) { return Fails; }
    }
    return Holds;
  }

  /** A lease that proves itself. */
  function ProvenLease(): Answer {
    Reply(200, Some(Obj(map["state" := Str("cleared"), "active" := Bool(true), "expires_in_s" := Int(60)])))
  }

  /** A service draining for `lease`, answering with any status code. */
  function DrainSnapshot(lease: string, code: int): Answer {
    Reply(code, Some(Obj(map["draining" := Bool(true), "drain" := Obj(map["lease_id" := Str(lease)]),
      "in_flight" := Int(0)])))
  }

  /** The status code of a drain snapshot is not looked at: an error answer with the right body passes. */
  method SnapshotCodeIsIgnored(lease: string, url: string, code: int) returns (v: Verdict)
    ensures v == Holds
  {
    v := PreissueCheck(lease, true, [url], ProvenLease(), _ => DrainSnapshot(lease, code));
  }

  /** A thread that dies of an exception it does not catch is not noticed: no later refusal is heard. */
  method DeadThreadIsSilent(later: seq<Answer>) returns (lost: bool)
    ensures !lost
  {
    var beat := new Heartbeat(true);
    beat.Beat([Raises(Other)] + later);
    lost := beat.Lost();
  }
}

/**
 * The access session of a worker or agent (agents/runtime/loop_agent.go): many concurrent calls share one access
 * token; whoever finds it rejected renews it under the session lock, everybody else reuses the renewed one.
 */
module AccessSessions {
  import opened Text

  /** The failure channel: not made yet, open, closed. */
  datatype Channel = NotMade | Made | Closed

  /** `failed` is failureErr != nil; `closes` counts how often the failure channel was closed. */
  datatype Session = Session(access: string, refresh: string, failed: bool, channel: Channel, hasRenew: bool, closes: nat)

  /** What Renew returns. */
  datatype Renewal = Renewed(access: string, refresh: string) | NotPersisted | RenewError

  datatype Verdict = SessionFailed | AlreadyRenewed | NoRenewer | MustRenew

  // ---- the critical sections ---------------------------------------------------------------------

  /** refreshRejected up to the call of Renew. */
  function Check(s: Session, rejected: string): Verdict {
    if s.failed then SessionFailed
    else if s.access != rejected then AlreadyRenewed
    else if !s.hasRenew then NoRenewer
    else MustRenew
  }

  /** failLocked */
  function Fail(s: Session): Session {
    if s.failed then s else s.(failed := true, channel := Closed, closes := s.closes + 1)
  }

  predicate Usable(r: Renewal) {
    r.Renewed? && r.access != "" && r.refresh != ""
  }

  /** refreshRejected from the return of Renew on. */
  function AfterRenew(s: Session, r: Renewal): Session {
    if r.NotPersisted? then Fail(s)
    else if Usable(r) then s.(access := r.access, refresh := r.refresh)
    else s
  }

  /** The session object; each method is one stay inside the lock. */
  class AccessSession {
    var access: string
    var refresh: string
    var failed: bool
    var channel: Channel
    var closes: nat
    const hasRenew: bool

    constructor (access: string, refresh: string, hasRenew: bool)
      ensures View() == Session(access, refresh, false, NotMade, hasRenew, 0)
    {
      this.access, this.refresh, this.hasRenew := access, refresh, hasRenew;
      this.failed, this.channel, this.closes := false, NotMade, 0;
    }

    function View(): Session
      reads this
    {
      Session(access, refresh, failed, channel, hasRenew, closes)
    }

    method FailLocked()
      modifies this
      ensures View() == Fail(old(View()))
    {
      if failed {
        return;
      }
      failed := true;
      if channel == NotMade {
        channel := Made;
      }
      channel, closes := Closed, closes + 1;
    }

    method Failure() returns (c: Channel)
      modifies this`channel
      ensures View() == old(View()).(channel := c)
      ensures c == if old(channel) == NotMade then Made else old(channel)
    {
      if channel == NotMade {
        channel := Made;
      }
      c := channel;
    }

    /** refreshRejected; `renew` is what Renew returns if it is called. */
    method RefreshRejected(rejected: string, renew: Renewal) returns (ok: bool, renewing: bool)
      modifies this
      ensures renewing == (Check(old(View()), rejected) == MustRenew)
      ensures View() == if renewing then AfterRenew(old(View()), renew) else old(View())
      ensures ok <==> Check(old(View()), rejected) == AlreadyRenewed || (renewing && Usable(renew))
      ensures ok && renewing ==> access == renew.access && refresh == renew.refresh && access != "" && refresh != ""
      ensures !(ok && renewing) ==> access == old(access) && refresh == old(refresh)
      ensures failed <==> old(failed) || (renewing && renew == NotPersisted)
    {
      renewing := false;
      if failed {
        return false, false;
      }
      if access != rejected {
        return true, false;
      }
      if !hasRenew {
        return false, false;
      }
      renewing := true;
      match renew {
        case NotPersisted =>
          FailLocked();
          ok := false;
        case RenewError =>
          ok := false;
        case Renewed(a, r) =>
          if a == "" || r == "" {
            return false, true;
          }
          access, refresh := a, r;
          ok := true;
      }
    }
  }

  // ---- any number of calls, in any interleaving --------------------------------------------------

  /** Where a Call, or a RefreshIfUnauth, is. */
  datatype Pc =
    | Entering
    | Calling(token: string)
    | Waiting(rejected: string)      // for the lock, in refreshRejected
    | Renewing                       // inside the lock, Renew under way
    | Reentering
    | CallingAgain(token: string)
    | Returned

  /** `calls` counts how often the function was invoked; `again` is false for RefreshIfUnauth, which does not call. */
  datatype Caller = Caller(pc: Pc, calls: nat, again: bool)

  /** `used` holds every access token there ever was; `renewals` the tokens that were renewed, in order. */
  datatype System = System(
    session: Session, callers: seq<Caller>, lock: Option<nat>, used: set<string>, renewals: seq<string>, starts: nat)

  datatype CallResult = CallOk | Rejected | OtherError

  datatype Event =
    | NewCall
    | NewRefresh
    | Enter(c: nat)
    | Reply(c: nat, result: CallResult)
    | Acquire(c: nat)
    | RenewReturns(c: nat, renewal: Renewal)
    | AskFailure
    | PersistenceFails

  function Start(access: string, refresh: string, hasRenew: bool): System {
    System(Session(access, refresh, false, NotMade, hasRenew, 0), [], None, {access}, [], 0)
  }

  function At(s: System, c: nat): Caller {
    if c < |s.callers| then s.callers[c] else Caller(Returned, 0, false)
  }

  function Moved(s: System, c: nat, pc: Pc): System
    requires c < |s.callers|
  {
    s.(callers := s.callers[c := s.callers[c].(pc := pc)])
  }

  /** The function is invoked. */
  function Invoked(s: System, c: nat, pc: Pc): System
    requires c < |s.callers|
  {
    s.(callers := s.callers[c := s.callers[c].(pc := pc, calls := s.callers[c].calls + 1)])
  }

  /**
   * Renewals are fresh: RenewReturns with a token that was in use before does not happen. Everything that touches
   * the session needs the lock to be free, or to be the caller's.
   */
  function Next(s: System, e: Event): System {
    match e
    case NewCall => s.(callers := s.callers + [Caller(Entering, 0, true)])
    case NewRefresh =>
      if s.lock.Some? then s else s.(callers := s.callers + [Caller(Waiting(s.session.access), 0, false)])
    case Enter(c) =>
      if s.lock.Some? then s
      else
        (match At(s, c).pc
         case Entering => if s.session.failed then Moved(s, c, Returned) else Invoked(s, c, Calling(s.session.access))
         case Reentering => if s.session.failed then Moved(s, c, Returned) else Invoked(s, c, CallingAgain(s.session.access))
         case _ => s)
    case Reply(c, result) =>
      (match At(s, c).pc
       case Calling(token) => Moved(s, c, if result == Rejected then Waiting(token) else Returned)
       case CallingAgain(_) => Moved(s, c, Returned)
       case _ => s)
    case Acquire(c) =>
      if s.lock.Some? || !At(s, c).pc.Waiting? then s
      else
        (match Check(s.session, At(s, c).pc.rejected)
         case AlreadyRenewed => Moved(s, c, if At(s, c).again then Reentering else Returned)
         case MustRenew => Moved(s, c, Renewing).(lock := Some(c), starts := s.starts + 1)
         case _ => Moved(s, c, Returned))
    case RenewReturns(c, renewal) =>
      if !At(s, c).pc.Renewing? || (Usable(renewal) && renewal.access in s.used) then s
      else
        var next := if Usable(renewal) && At(s, c).again then Reentering else Returned;
        var done := Moved(s, c, next).(session := AfterRenew(s.session, renewal), lock := None);
        if Usable(renewal)
        then done.(used := s.used + {renewal.access}, renewals := s.renewals + [s.session.access])
        else done
    case AskFailure =>
      if s.lock.Some? || s.session.channel != NotMade then s else s.(session := s.session.(channel := Made))
    case PersistenceFails => if s.lock.Some? then s else s.(session := Fail(s.session))
  }

  function Exec(s: System, es: seq<Event>): System {
    if es == [] then s else Next(Exec(s, es[..|es| - 1]), es[|es| - 1])
  }

  // ---- the invariant -----------------------------------------------------------------------------

  /** How often a caller at this point has invoked its function. */
  predicate CallsOk(c: Caller) {
    match c.pc
    case Entering => c.calls == 0 && c.again
    case Calling(_) => c.calls == 1 && c.again
    case Waiting(_) => c.calls == if c.again then 1 else 0
    case Renewing => c.calls == if c.again then 1 else 0
    case Reentering => c.calls == 1 && c.again
    case CallingAgain(_) => c.calls == 2 && c.again
    case Returned => c.calls <= 2
  }

  predicate SessionOk(x: Session) {
    && x.closes == (if x.failed then 1 else 0)
    && (x.channel == Closed <==> x.failed)
  }

  predicate CallerOk(c: Caller, k: nat, lock: Option<nat>) {
    CallsOk(c) && (c.pc.Renewing? <==> lock == Some(k))
  }

  predicate CallersOk(callers: seq<Caller>, lock: Option<nat>) {
    && (forall c :: 0 <= c < |callers| ==> CallerOk(callers[c], c, lock))
    && (lock.Some? ==> lock.value < |callers|)
  }

  /** Every token that was renewed is out of use for good, and was renewed once. */
  predicate TokensOk(access: string, used: set<string>, renewals: seq<string>) {
    && access in used
    && (forall k :: 0 <= k < |renewals| ==> renewals[k] in used && renewals[k] != access)
    && (forall k, l :: 0 <= k < l < |renewals| ==> renewals[k] != renewals[l])
  }

  predicate Inv(s: System) {
    && SessionOk(s.session)
    && CallersOk(s.callers, s.lock)
    && (s.lock.Some? ==> !s.session.failed && s.session.hasRenew)
    && TokensOk(s.session.access, s.used, s.renewals)
  }

  lemma OneMoved(callers: seq<Caller>, lock: Option<nat>, c: nat, caller: Caller, lock': Option<nat>)
    requires CallersOk(callers, lock) && c < |callers| && CallerOk(caller, c, lock')
    requires lock' == lock || (lock.None? && lock' == Some(c)) || (lock == Some(c) && lock'.None?)
    ensures CallersOk(callers[c := caller], lock')
  {
    var moved := callers[c := caller];
    forall d | 0 <= d < |moved|
      ensures CallerOk(moved[d], d, lock')
    {
      assert CallerOk(callers[d], d, lock);
    }
  }

  lemma NextKeepsCallers(s: System, e: Event)
    requires CallersOk(s.callers, s.lock)
    ensures CallersOk(Next(s, e).callers, Next(s, e).lock)
  {
    var s' := Next(s, e);
    if s'.callers != s.callers && |s'.callers| == |s.callers| {
      var c := e.c;
      assert CallerOk(s.callers[c], c, s.lock);
      assert s'.callers == s.callers[c := s'.callers[c]];
      OneMoved(s.callers, s.lock, c, s'.callers[c], s'.lock);
    }
  }

  lemma NextKeepsTokens(s: System, e: Event)
    requires TokensOk(s.session.access, s.used, s.renewals)
    ensures TokensOk(Next(s, e).session.access, Next(s, e).used, Next(s, e).renewals)
  {
  }

  lemma NextKeepsInv(s: System, e: Event)
    requires Inv(s)
    ensures Inv(Next(s, e))
  {
    NextKeepsCallers(s, e);
    NextKeepsTokens(s, e);
  }

  lemma {:induction false} ExecKeepsInv(s: System, es: seq<Event>)
    requires Inv(s)
    ensures Inv(Exec(s, es))
  {
    if es != [] {
      ExecKeepsInv(s, es[..|es| - 1]);
      NextKeepsInv(Exec(s, es[..|es| - 1]), es[|es| - 1]);
    }
  }

  // ---- what every interleaving guarantees -----------------------------------------------------------

  /**
   * Single flight: no access token is renewed twice, no function is called a third time, at most one renewal is
   * under way, and the failure channel is closed once if and only if the session failed.
   */
  lemma SingleFlight(access: string, refresh: string, hasRenew: bool, es: seq<Event>)
    ensures var s := Exec(Start(access, refresh, hasRenew), es);
            && (forall k, l :: 0 <= k < l < |s.renewals| ==> s.renewals[k] != s.renewals[l])
            && (forall c :: 0 <= c < |s.callers| ==> s.callers[c].calls <= 2)
            && (forall c, d :: 0 <= c < d < |s.callers| ==> !(s.callers[c].pc.Renewing? && s.callers[d].pc.Renewing?))
            && (s.session.failed <==> s.session.channel == Closed)
            && s.session.closes == (if s.session.failed then 1 else 0)
  {
    ExecKeepsInv(Start(access, refresh, hasRenew), es);
    var s := Exec(Start(access, refresh, hasRenew), es);
    assert forall c :: 0 <= c < |s.callers| ==> CallerOk(s.callers[c], c, s.lock);
  }

  /** Once the session has failed it stays failed, its channel is not closed again, and no renewal is started. */
  lemma {:induction false} NoRenewalAfterFailure(s: System, es: seq<Event>)
    requires Inv(s) && s.session.failed
    ensures var s' := Exec(s, es);
            s'.session.failed && s'.session.closes == s.session.closes && s'.starts == s.starts && s'.renewals == s.renewals
  {
    if es != [] {
      NoRenewalAfterFailure(s, es[..|es| - 1]);
      ExecKeepsInv(s, es[..|es| - 1]);
    }
  }

  function Calls(s: System, c: nat): nat {
    At(s, c).calls
  }

  /** Once the session has failed no function is invoked any more, by callers of before or of after. */
  lemma {:induction false} NoCallAfterFailure(s: System, es: seq<Event>, c: nat)
    requires Inv(s) && s.session.failed
    ensures Calls(Exec(s, es), c) == Calls(s, c)
  {
    if es != [] {
      var before := es[..|es| - 1];
      NoCallAfterFailure(s, before, c);
      NoRenewalAfterFailure(s, before);
    }
  }

  /** Renew returns with tokens that are taken over. */
  predicate Renews(s: System, e: Event) {
    e.RenewReturns? && At(s, e.c).pc.Renewing? && Usable(e.renewal) && e.renewal.access !in s.used
  }

  lemma TokensMove(s: System, e: Event)
    requires Inv(s)
    ensures var s' := Next(s, e);
            if Renews(s, e)
            then && s'.session.access == e.renewal.access && s'.session.refresh == e.renewal.refresh
                 && s'.renewals == s.renewals + [s.session.access]
            else s'.session.access == s.session.access && s'.session.refresh == s.session.refresh && s'.renewals == s.renewals
  {
  }

  /** The renewal at position k of a run is the last one, and the session still holds both its tokens. */
  predicate HoldsRenewal(s: System, es: seq<Event>, k: nat)
    requires k < |es|
  {
    && Renews(Exec(s, es[..k]), es[k])
    && Exec(s, es).session.access == es[k].renewal.access && Exec(s, es).session.refresh == es[k].renewal.refresh
    && Exec(s, es).renewals == Exec(s, es[..k]).renewals + [Exec(s, es[..k]).session.access]
  }

  /** Whatever else happens, the session holds the access and the refresh token of the last renewal, or of its start. */
  lemma {:induction false} LastRenewalIsHeld(s: System, es: seq<Event>)
    requires Inv(s)
    ensures var s' := Exec(s, es);
            || (s'.renewals == s.renewals && s'.session.access == s.session.access && s'.session.refresh == s.session.refresh)
            || exists k :: 0 <= k < |es| && HoldsRenewal(s, es, k)
  {
    if es != [] {
      var n := |es| - 1;
      var before := es[..n];
      LastRenewalIsHeld(s, before);
      ExecKeepsInv(s, before);
      TokensMove(Exec(s, before), es[n]);
      if Renews(Exec(s, before), es[n]) {
        assert HoldsRenewal(s, es, n);
      } else if k: nat :| k < n && HoldsRenewal(s, before, k) {
        assert before[..k] == es[..k];
        assert HoldsRenewal(s, es, k);
      }
    }
  }

  /** A caller whose token was rejected but is no longer current reuses the renewed one without renewing. */
  lemma WaitersReuse(s: System, c: nat)
    requires Inv(s) && s.lock.None? && !s.session.failed && c < |s.callers|
    requires s.callers[c].pc.Waiting? && s.callers[c].again && s.callers[c].pc.rejected in s.renewals
    ensures var s' := Next(Next(s, Acquire(c)), Enter(c));
            s'.callers[c].pc == CallingAgain(s.session.access) && s'.starts == s.starts && s'.session == s.session
  {
  }
}

/** What holds in every interleaving of the token refresh. */
module SingleFlightRuns {
  import opened Base
  import opened SingleFlight

  predicate Running(p: Phase) {
    p.Registered? || p.Writing? || p.Ended?
  }

  /** The producer is still running, or its removal is pending. */
  predicate Live(p: Phase) {
    Running(p) || p.RemovalPending?
  }

  /** A registration's context and redemption count are what its phase says. */
  predicate Consistent(r: Registration) {
    match r.phase
    case Registered => r.context == EMPTY && r.redemptions == 0
    case Crashed => r.context == EMPTY && r.redemptions == 0 && !Loggable(r.token)
    case Writing(reply, k) => k < Writes(reply) && r.context == Written(reply, k) && r.redemptions == 1 && Loggable(r.token)
    case Ended(reply) => r.context == Settled(reply) && r.redemptions == 1 && Loggable(r.token)
    case RemovalPending(reply) => r.context == Settled(reply) && r.redemptions == 1 && Loggable(r.token)
    case Removed(reply) => r.context == Settled(reply) && r.redemptions == 1 && Loggable(r.token)
  }

  /** Exactly the live and the crashed registrations are in the table, each under its own token. */
  predicate Owned(s: Flights, id: nat)
    requires id < |s.regs|
  {
    Live(s.regs[id].phase) || s.regs[id].phase.Crashed? <==> s.regs[id].token in s.entries && s.entries[s.regs[id].token] == id
  }

  ghost predicate Inv(s: Flights) {
    && (forall id :: 0 <= id < |s.regs| ==> Consistent(s.regs[id]) && Owned(s, id))
    && (forall t :: t in s.entries ==> s.entries[t] < |s.regs| && s.regs[s.entries[t]].token == t)
  }

  lemma StepKeepsAt(s: Flights, a: Action, id: nat)
    requires Inv(s) && Enabled(s, a) && id < |Next(s, a).regs|
    ensures Consistent(Next(s, a).regs[id]) && Owned(Next(s, a), id)
  {
    if id < |s.regs| {
      assert Consistent(s.regs[id]) && Owned(s, id);
    }
    if a.Remove? {
      assert Owned(s, a.id);
    }
  }

  lemma StepKeepsInv(s: Flights, a: Action)
    requires Inv(s) && Enabled(s, a)
    ensures Inv(Next(s, a))
  {
    var t := Next(s, a);
    forall id | 0 <= id < |t.regs| ensures Consistent(t.regs[id]) && Owned(t, id) {
      StepKeepsAt(s, a, id);
    }
  }

  lemma {:induction false} RunKeepsInv(s: Flights, actions: seq<Action>)
    requires Inv(s) && CanRun(s, actions)
    ensures Inv(Run(s, actions))
    decreases |actions|
  {
    if actions != [] {
      StepKeepsInv(s, actions[0]);
      RunKeepsInv(Next(s, actions[0]), actions[1..]);
    }
  }

  /** The states some interleaving leads to. */
  ghost predicate Reachable(s: Flights) {
    exists actions :: CanRun(START, actions) && Run(START, actions) == s
  }

  lemma ReachableInv(s: Flights)
    requires Reachable(s)
    ensures Inv(s) && Ordered(s)
  {
    var actions :| CanRun(START, actions) && Run(START, actions) == s;
    RunKeepsInv(START, actions);
    OlderAreRemoved(START, actions);
  }

  // ---- single flight ----

  /** The registration is one of this token, and its producer is running or its removal pending. */
  ghost predicate Flies(s: Flights, id: nat, token: string) {
    id < |s.regs| && s.regs[id].token == token && Live(s.regs[id].phase)
  }

  /** The registration is one of this token, and its producer has crashed. */
  ghost predicate Fell(s: Flights, id: nat, token: string) {
    id < |s.regs| && s.regs[id].token == token && s.regs[id].phase.Crashed?
  }

  ghost predicate Keeps(s: Flights, id: nat, token: string) {
    Flies(s, id, token) || Fell(s, id, token)
  }

  /**
   In every interleaving a token of at least ten characters is in the table exactly when one registration of it is
   live, a shorter one exactly when one is live or has crashed; and there is never more than one such registration.
   */
  lemma EntryIffLive(s: Flights, token: string)
    requires Reachable(s)
    ensures token in s.entries <==> exists id :: if |token| >= 10 then Flies(s, id, token) else Keeps(s, id, token)
    ensures forall i, j :: Keeps(s, i, token) && Keeps(s, j, token) ==> i == j
    ensures |token| >= 10 ==> forall id :: !Fell(s, id, token)
  {
    ReachableInv(s);
    if token in s.entries {
      var id := s.entries[token];
      assert Owned(s, id) && Consistent(s.regs[id]);
      assert Keeps(s, id, token) && (Loggable(token) ==> Flies(s, id, token));
    }
    forall id | Keeps(s, id, token) ensures token in s.entries && s.entries[token] == id {
      assert Owned(s, id);
    }
    forall id: nat | Fell(s, id, token) ensures !Loggable(token) {
      assert Consistent(s.regs[id]);
    }
  }

  /** A refresh token is redeemed at most once per registration, and only after every earlier registration was removed. */
  lemma OneFlightAtATime(s: Flights, i: nat, j: nat)
    requires Reachable(s) && i < j < |s.regs| && s.regs[i].token == s.regs[j].token
    ensures s.regs[i].redemptions == 1 && s.regs[j].redemptions <= 1 && s.regs[i].phase.Removed?
  {
    ReachableInv(s);
    assert Consistent(s.regs[i]) && Consistent(s.regs[j]);
  }

  ghost predicate Ordered(s: Flights) {
    forall i, j :: 0 <= i < j < |s.regs| && s.regs[i].token == s.regs[j].token ==> s.regs[i].phase.Removed?
  }

  lemma StepKeepsOrder(s: Flights, a: Action)
    requires Inv(s) && Ordered(s) && Enabled(s, a)
    ensures Ordered(Next(s, a))
  {
    var t := Next(s, a);
    forall i, j | 0 <= i < j < |t.regs| && t.regs[i].token == t.regs[j].token ensures t.regs[i].phase.Removed? {
      assert Owned(s, i);
    }
  }

  lemma {:induction false} OlderAreRemoved(s: Flights, actions: seq<Action>)
    requires Inv(s) && Ordered(s) && CanRun(s, actions)
    ensures Ordered(Run(s, actions))
    decreases |actions|
  {
    if actions != [] {
      StepKeepsInv(s, actions[0]);
      StepKeepsOrder(s, actions[0]);
      OlderAreRemoved(Next(s, actions[0]), actions[1..]);
    }
  }

  /** A delayed removal takes out its own registration's entry, never a later one's, and no other token's. */
  lemma RemovalTakesItsOwn(s: Flights, id: nat)
    requires Reachable(s) && Enabled(s, Remove(id))
    ensures s.regs[id].token in s.entries && s.entries[s.regs[id].token] == id
    ensures forall t :: t in Next(s, Remove(id)).entries <==> t in s.entries && s.entries[t] != id
  {
    ReachableInv(s);
    assert Owned(s, id);
  }

  // ---- the result ----

  /** The later context has everything the earlier one had. */
  predicate Extends(later: Context, earlier: Context) {
    && (earlier.error.Some? ==> later.error == earlier.error)
    && (earlier.idToken.Some? ==> later.idToken == earlier.idToken)
  }

  predicate HasEnded(p: Phase) {
    p.Ended? || p.RemovalPending? || p.Removed?
  }

  predicate Kept(before: Registration, after: Registration) {
    && after.token == before.token && Extends(after.context, before.context)
    && (HasEnded(before.phase) ==> HasEnded(after.phase) && after.context == before.context)
  }

  lemma StepKeepsResult(s: Flights, a: Action, id: nat)
    requires Inv(s) && Enabled(s, a) && id < |s.regs|
    ensures |s.regs| <= |Next(s, a).regs| && Kept(s.regs[id], Next(s, a).regs[id])
  {
    assert Consistent(s.regs[id]);
  }

  /** Results are settled: nothing set is ever changed, and nothing at all once the producer ended. */
  lemma {:induction false} ResultIsSettled(s: Flights, actions: seq<Action>, id: nat)
    requires Inv(s) && CanRun(s, actions) && id < |s.regs|
    ensures |s.regs| <= |Run(s, actions).regs| && Kept(s.regs[id], Run(s, actions).regs[id])
    decreases |actions|
  {
    if actions != [] {
      StepKeepsInv(s, actions[0]);
      StepKeepsResult(s, actions[0], id);
      ResultIsSettled(Next(s, actions[0]), actions[1..], id);
    }
  }

  /** The condition a waiting request leaves its loop on. */
  predicate Ready(c: Context) {
    c.idToken.Some? || c.error.Some?
  }

  /** Once a producer ended, whoever reads its context at any later time finds one of error and id token, and its reply. */
  lemma ReadersGetTheReply(s: Flights, later: seq<Action>, id: nat, reply: Reply)
    requires Reachable(s) && id < |s.regs| && s.regs[id].phase == Ended(reply) && CanRun(s, later)
    ensures id < |Run(s, later).regs|
    ensures var c := Run(s, later).regs[id].context;
      Ready(c) && c == Settled(reply) && (c.error.Some? <==> c.idToken.None?)
  {
    ReachableInv(s);
    ResultIsSettled(s, later, id);
    assert Consistent(s.regs[id]);
  }

  /**
   Before the end a reader may leave its loop too early: what it then reads is the reply exactly when no field is
   still to be written.
   */
  lemma EarlyReadIff(s: Flights, id: nat)
    requires Reachable(s) && id < |s.regs| && Ready(s.regs[id].context)
    ensures var r := s.regs[id];
      match r.phase
      case Writing(reply, k) => reply.Verified? && k >= 1
        && (r.context == Settled(reply) <==> reply.refreshToken == "" && (k == 1 ==> reply.raw == ""))
      case Ended(reply) => r.context == Settled(reply)
      case RemovalPending(reply) => r.context == Settled(reply)
      case Removed(reply) => r.context == Settled(reply)
      case Registered => false
      case Crashed => false
  {
    ReachableInv(s);
    assert Consistent(s.regs[id]);
  }

  /**
   What a context holds at every moment: nothing before the first write; then the id token, then its text too; at the
   end the three fields of a verified answer, or the error alone.
   */
  lemma ContextMeans(s: Flights, id: nat)
    requires Reachable(s) && id < |s.regs|
    ensures var c := s.regs[id].context;
      match s.regs[id].phase
      case Registered => c == Context(None, None, "", "")
      case Crashed => c == Context(None, None, "", "")
      case Writing(Failed(_), _) => c == Context(None, None, "", "")
      case Writing(Verified(idToken, raw, _), k) =>
        c == Context(None, if k == 0 then None else Some(idToken), if k == 2 then raw else "", "") && k <= 2
      case Ended(reply) => HoldsAll(c, reply)
      case RemovalPending(reply) => HoldsAll(c, reply)
      case Removed(reply) => HoldsAll(c, reply)
  {
    ReachableInv(s);
    assert Consistent(s.regs[id]);
  }

  predicate HoldsAll(c: Context, reply: Reply) {
    match reply
    case Failed(failure) => c == Context(Some(failure), None, "", "")
    case Verified(idToken, raw, refreshToken) => c == Context(None, Some(idToken), raw, refreshToken)
  }

  // ---- tokens the debug line cannot cut ----

  predicate Stuck(s: Flights, token: string) {
    && token in s.entries && s.entries[token] < |s.regs|
    && s.regs[s.entries[token]].token == token
    && (s.regs[s.entries[token]].phase.Registered? || s.regs[s.entries[token]].phase.Crashed?)
  }

  lemma StepKeepsStuck(s: Flights, a: Action, token: string)
    requires Inv(s) && Stuck(s, token) && !Loggable(token) && Enabled(s, a)
    ensures Stuck(Next(s, a), token) && Next(s, a).entries[token] == s.entries[token]
  {
    if a.Remove? && s.regs[a.id].token == token {
      assert Owned(s, a.id);
      assert Consistent(s.regs[a.id]);
    }
  }

  /** A token of fewer than ten characters, once registered, is never redeemed and never leaves the table. */
  lemma {:induction false} ShortTokenIsStuck(s: Flights, actions: seq<Action>, token: string)
    requires Inv(s) && Stuck(s, token) && |token| < 10 && CanRun(s, actions)
    ensures Stuck(Run(s, actions), token)
    ensures Run(s, actions).entries[token] == s.entries[token]
    ensures Run(s, actions).regs[s.entries[token]].redemptions == 0
    decreases |actions|
  {
    if actions == [] {
      assert Consistent(s.regs[s.entries[token]]);
    } else {
      StepKeepsInv(s, actions[0]);
      StepKeepsStuck(s, actions[0], token);
      ShortTokenIsStuck(Next(s, actions[0]), actions[1..], token);
    }
  }

  ghost predicate CanLeave(s: Flights, token: string) {
    exists actions :: CanRun(s, actions) && token !in Run(s, actions).entries
  }

  lemma RemovalRun(s: Flights, id: nat)
    requires Inv(s) && id < |s.regs| && s.regs[id].phase.Ended?
    ensures CanRun(s, [Schedule(id), Remove(id)])
    ensures s.regs[id].token !in Run(s, [Schedule(id), Remove(id)]).entries
  {
    var t := Next(s, Schedule(id));
    RunFirst(s, Schedule(id), [Remove(id)]);
    RunFirst(t, Remove(id), []);
    assert [Remove(id)] + [] == [Remove(id)] && [Schedule(id)] + [Remove(id)] == [Schedule(id), Remove(id)];
  }

  lemma EndedLeaves(s: Flights, actions: seq<Action>, id: nat)
    requires Inv(s) && CanRun(s, actions) && id < |Run(s, actions).regs| && Run(s, actions).regs[id].phase.Ended?
    ensures CanLeave(s, Run(s, actions).regs[id].token)
  {
    RunKeepsInv(s, actions);
    RemovalRun(Run(s, actions), id);
    RunAppend(s, actions, [Schedule(id), Remove(id)]);
  }

  lemma LoggableLeaves(s: Flights, id: nat, reply: Reply)
    requires Inv(s) && Enabled(s, Redeem(id, reply))
    ensures CanLeave(s, s.regs[id].token)
  {
    var actions := RefreshActions(id, reply);
    RefreshRun(s, id, reply, actions);
    EndedLeaves(s, actions, id);
  }

  /** A token that was just registered can leave the table again exactly when it has at least ten characters. */
  lemma LeavesIffLoggable(s: Flights, token: string)
    requires Reachable(s) && token !in s.entries
    ensures CanLeave(Next(s, Arrive(token)), token) <==> |token| >= 10
  {
    ReachableInv(s);
    var t, id := Next(s, Arrive(token)), |s.regs|;
    StepKeepsInv(s, Arrive(token));
    if Loggable(token) {
      LoggableLeaves(t, id, Failed(NoIdToken));
    } else {
      forall actions | CanRun(t, actions) ensures token in Run(t, actions).entries {
        ShortTokenIsStuck(t, actions, token);
      }
    }
  }

  lemma {:induction false} RunAppend(s: Flights, a: seq<Action>, b: seq<Action>)
    requires CanRun(s, a) && CanRun(Run(s, a), b)
    ensures CanRun(s, a + b) && Run(s, a + b) == Run(Run(s, a), b)
    decreases |a|
  {
    if a == [] {
      assert a + b == b;
    } else {
      RunAppend(Next(s, a[0]), a[1..], b);
      assert (a + b)[1..] == a[1..] + b;
    }
  }
}

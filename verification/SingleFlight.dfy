/**
 The auth proxy's single-flight token refresh: the first request with a refresh token becomes its producer and
 redeems it; the others wait for the producer's result; the table entry is removed some time after the end.
 Every interleaving of requests, producers and delayed removals is a run of the machine below.
 */
module SingleFlight {
  import opened Base

  /** How a refresh can fail: the provider refused, its answer had no id token, or the new id token is invalid. */
  datatype Failure = TokenError(message: string) | NoIdToken | Unverified

  /** What redeeming a refresh token comes to. */
  datatype Reply = Failed(failure: Failure) | Verified(idToken: string, raw: string, refreshToken: string)

  /** The provider's answer and the check of the id token in it. */
  datatype Answer = Answer(error: Option<string>, raw: Option<string>, verified: Option<string>, refreshToken: string)

  function ReplyOf(answer: Answer): Reply {
    if answer.error.Some? then Failed(TokenError(answer.error.value))
    else if answer.raw.None? then Failed(NoIdToken)
    else if answer.verified.None? then Failed(Unverified)
    else Verified(answer.verified.value, answer.raw.value, answer.refreshToken)
  }

  /** The fields a producer shares with its waiters. */
  datatype Context = Context(error: Option<Failure>, idToken: Option<string>, idTokenString: string, refreshToken: string)

  const EMPTY := Context(None, None, "", "")

  /** What doRefresh leaves in the context. */
  function Settled(reply: Reply): Context {
    match reply
    case Failed(failure) => EMPTY.(error := Some(failure))
    case Verified(idToken, raw, refreshToken) => Context(None, Some(idToken), raw, refreshToken)
  }

  /** Where the producer of a registration stands. */
  datatype Phase =
    | Registered
    | Crashed
    | Writing(reply: Reply, written: nat)
    | Ended(reply: Reply)
    | RemovalPending(reply: Reply)
    | Removed(reply: Reply)

  datatype Registration = Registration(token: string, context: Context, phase: Phase, redemptions: nat)

  /** Registrations are numbered in the order they were made; entries is the shared table. */
  datatype Flights = Flights(entries: map<string, nat>, regs: seq<Registration>)

  const START := Flights(map[], [])

  datatype Action =
    | Arrive(token: string)
    | Redeem(id: nat, reply: Reply)
    | Crash(id: nat)
    | Write(id: nat)
    | Schedule(id: nat)
    | Remove(id: nat)

  /** The debug line cuts the first ten characters off the token; a shorter one panics there. */
  predicate Loggable(token: string) {
    |token| >= 10
  }

  /** How many separate field writes a reply takes. */
  function Writes(reply: Reply): nat {
    if reply.Verified? then 3 else 1
  }

  /** The context after the first k writes. */
  function Written(reply: Reply, k: nat): Context {
    if k >= Writes(reply) then Settled(reply)
    else if k == 0 then EMPTY
    else if k == 1 then EMPTY.(idToken := Settled(reply).idToken)
    else EMPTY.(idToken := Settled(reply).idToken, idTokenString := Settled(reply).idTokenString)
  }

  predicate Enabled(s: Flights, a: Action) {
    match a
    case Arrive(_) => true
    case Redeem(id, _) => id < |s.regs| && s.regs[id].phase.Registered? && Loggable(s.regs[id].token)
    case Crash(id) => id < |s.regs| && s.regs[id].phase.Registered? && !Loggable(s.regs[id].token)
    case Write(id) => id < |s.regs| && s.regs[id].phase.Writing?
    case Schedule(id) => id < |s.regs| && s.regs[id].phase.Ended?
    case Remove(id) => id < |s.regs| && s.regs[id].phase.RemovalPending?
  }

  function AfterWrite(r: Registration): Registration
    requires r.phase.Writing?
  {
    var k := r.phase.written + 1;
    r.(context := Written(r.phase.reply, k),
       phase := if k >= Writes(r.phase.reply) then Ended(r.phase.reply) else Writing(r.phase.reply, k))
  }

  function Next(s: Flights, a: Action): Flights
    requires Enabled(s, a)
  {
    match a
    case Arrive(token) =>
      if token in s.entries then s
      else Flights(s.entries[token := |s.regs|], s.regs + [Registration(token, EMPTY, Registered, 0)])
    case Redeem(id, reply) =>
      var r := s.regs[id];
      s.(regs := s.regs[id := r.(phase := Writing(reply, 0), redemptions := r.redemptions + 1)])
    case Crash(id) => s.(regs := s.regs[id := s.regs[id].(phase := Crashed)])
    case Write(id) => s.(regs := s.regs[id := AfterWrite(s.regs[id])])
    case Schedule(id) => s.(regs := s.regs[id := s.regs[id].(phase := RemovalPending(s.regs[id].phase.reply))])
    // deletes by token, whatever registration holds the entry by then
    case Remove(id) => Flights(s.entries - {s.regs[id].token},
      s.regs[id := s.regs[id].(phase := Removed(s.regs[id].phase.reply))])
  }

  predicate CanRun(s: Flights, actions: seq<Action>)
    decreases |actions|
  {
    actions == [] || (Enabled(s, actions[0]) && CanRun(Next(s, actions[0]), actions[1..]))
  }

  function Run(s: Flights, actions: seq<Action>): Flights
    requires CanRun(s, actions)
    decreases |actions|
  {
    if actions == [] then s else Run(Next(s, actions[0]), actions[1..])
  }

  // ---- the shared table and the producer's code ----

  class RefreshTable {
    var entries: map<string, nat>
    var regs: seq<Registration>

    function State(): Flights
      reads this
    {
      Flights(entries, regs)
    }

    constructor ()
      ensures State() == START
    {
      entries, regs := map[], [];
    }

    /** Under the table's lock: the entry of the token, or a new one that makes the caller its producer. */
    method GetRefreshTokenCond(token: string) returns (id: nat, isProducer: bool)
      modifies this
      ensures State() == Next(old(State()), Arrive(token))
      ensures token in entries && entries[token] == id
      ensures isProducer <==> token !in old(entries)
      ensures isProducer ==> id == |old(regs)|
    {
      if token in entries {
        return entries[token], false;
      }
      id, isProducer := |regs|, true;
      regs := regs + [Registration(token, EMPTY, Registered, 0)];
      entries := entries[token := id];
    }

    method SetContext(id: nat, context: Context, phase: Phase)
      requires id < |regs|
      modifies `regs
      ensures regs == old(regs)[id := old(regs)[id].(context := context, phase := phase)]
    {
      regs := regs[id := regs[id].(context := context, phase := phase)];
    }

    /** The three result fields, one write after the other. */
    method SetTokens(id: nat, reply: Reply)
      requires id < |regs| && reply.Verified? && regs[id].context == EMPTY
      modifies `regs
      ensures regs == old(regs)[id := old(regs)[id].(context := Settled(reply), phase := Ended(reply))]
    {
      SetContext(id, EMPTY.(idToken := Some(reply.idToken)), Writing(reply, 1));
      SetContext(id, regs[id].context.(idTokenString := reply.raw), Writing(reply, 2));
      SetContext(id, regs[id].context.(refreshToken := reply.refreshToken), Ended(reply));
    }

    /** The producer's refresh: one redemption, then the result; RefreshRun says that this is a run of the machine. */
    method DoRefresh(id: nat, answer: Answer) returns (err: Option<Failure>)
      requires Enabled(State(), Redeem(id, ReplyOf(answer))) && regs[id].context == EMPTY
      modifies this
      ensures State() == Refreshed(old(State()), id, ReplyOf(answer))
      ensures err == regs[id].context.error && (err.Some? <==> regs[id].context.idToken.None?)
      ensures err.None? <==> answer.error.None? && answer.raw.Some? && answer.verified.Some?
      ensures err.None? ==>
        regs[id].context == Context(None, answer.verified, answer.raw.value, answer.refreshToken)
      ensures err.Some? ==>
        err.value == (if answer.error.Some? then TokenError(answer.error.value)
                      else if answer.raw.None? then NoIdToken else Unverified)
        && regs[id].context == Context(err, None, "", "")
      ensures regs[id].phase.Ended? && regs[id].redemptions == old(regs[id].redemptions) + 1
    {
      regs := regs[id := regs[id].(phase := Writing(ReplyOf(answer), 0), redemptions := regs[id].redemptions + 1)];
      if answer.error.Some? {
        err := Some(TokenError(answer.error.value));
      } else if answer.raw.None? {
        err := Some(NoIdToken);
      } else if answer.verified.None? {
        err := Some(Unverified);
      } else {
        err := None;
        SetTokens(id, ReplyOf(answer));
      }
      if err.Some? {
        SetContext(id, EMPTY.(error := err), Ended(ReplyOf(answer)));
      }
    }

    /** The delayed removal, when its time has come. */
    method RemoveRefreshTokenCond(id: nat)
      requires Enabled(State(), Remove(id))
      modifies this
      ensures State() == Next(old(State()), Remove(id))
    {
      entries := entries - {regs[id].token};
      regs := regs[id := regs[id].(phase := Removed(regs[id].phase.reply))];
    }
  }

  function Repeat(a: Action, n: nat): (actions: seq<Action>)
    ensures |actions| == n
  {
    if n == 0 then [] else [a] + Repeat(a, n - 1)
  }

  function RefreshActions(id: nat, reply: Reply): seq<Action> {
    [Redeem(id, reply)] + Repeat(Write(id), Writes(reply))
  }

  function Refreshed(s: Flights, id: nat, reply: Reply): Flights
    requires id < |s.regs|
  {
    var r := s.regs[id];
    s.(regs := s.regs[id := Registration(r.token, Settled(reply), Ended(reply), r.redemptions + 1)])
  }

  lemma RunFirst(s: Flights, a: Action, rest: seq<Action>)
    requires Enabled(s, a)
    ensures CanRun(s, [a] + rest) <==> CanRun(Next(s, a), rest)
    ensures CanRun(s, [a] + rest) ==> Run(s, [a] + rest) == Run(Next(s, a), rest)
  {
    assert ([a] + rest)[1..] == rest;
  }

  lemma {:induction false} WriteRun(s: Flights, id: nat, n: nat)
    requires id < |s.regs| && s.regs[id].phase.Writing? && n == Writes(s.regs[id].phase.reply) - s.regs[id].phase.written
    requires n > 0
    ensures CanRun(s, Repeat(Write(id), n))
    ensures var r := s.regs[id];
      Run(s, Repeat(Write(id), n)) ==
      s.(regs := s.regs[id := r.(context := Settled(r.phase.reply), phase := Ended(r.phase.reply))])
    decreases n
  {
    var t := Next(s, Write(id));
    RunFirst(s, Write(id), Repeat(Write(id), n - 1));
    if n > 1 {
      WriteRun(t, id, n - 1);
    }
  }

  /** An undisturbed refresh ends with the settled result. */
  lemma RefreshRun(s: Flights, id: nat, reply: Reply, actions: seq<Action>)
    requires Enabled(s, Redeem(id, reply)) && actions == RefreshActions(id, reply)
    ensures CanRun(s, actions) && Run(s, actions) == Refreshed(s, id, reply)
  {
    var t, n := Next(s, Redeem(id, reply)), Writes(reply);
    WriteRun(t, id, n);
    RunFirst(s, Redeem(id, reply), Repeat(Write(id), n));
  }
}

/** The blind-relay server and session objects. Every method is one critical section of the
    server (or a session's use of them) and is proved to take the step of `RelaySpec` it models. */
module Relay {
  import opened Options
  import opened RelaySpec

  datatype PairOutcome = Waiting | AlreadyPairing | Matched(pairing: Match) | LimitExceeded

  datatype UnpairOutcome = Cancelled | Destroyed | NotFound

  /** What a pair request reports: its slot is taken, nobody is there, or the other role is. */
  ghost function OutcomeOf(s: State, e: Event): PairOutcome
    requires e.FinishPair?
  {
    var pair := PairOf(s, e.token);
    if pair.Slot(e.isInitiator).Some? then AlreadyPairing
    else match pair.Slot(!e.isInitiator)
      case None => Waiting
      case Some(other) => Matched(Match(e.token, other, NewLink(s, e)))
  }

  /** The report tells the session how the step changed the history. */
  lemma OutcomeTells(s: State, e: Event)
    requires e.FinishPair? && e.session in s.h.counts
    ensures var t, o := Finish(s, e), OutcomeOf(s, e);
            && !o.LimitExceeded?
            && t.h.matches == (if o.Matched? then s.h.matches + [o.pairing] else s.h.matches)
            && t.h.counts == if o.Waiting? then s.h.counts[e.session := s.h.counts[e.session] + 1] else s.h.counts
  {
  }

  class BlindRelayServer {
    const config: Config
    var pairing: map<Token, Pending>
    var active: map<Token, Active>
    var sessionCount: nat
    var nextSession: nat
    var accepted: nat
    var requested: nat
    var matched: nat
    var cancelled: nat
    var pendingCount: int
    var activeCount: int
    var serials: nat

    ghost var h: History

    ghost function Model(): State
      reads this
    {
      State(pairing, active, sessionCount, nextSession, accepted, requested, matched, cancelled, pendingCount,
            activeCount, serials, h)
    }

    constructor (config: Config)
      ensures this.config == config && Model() == INITIAL
    {
      this.config := config;
      pairing, active := map[], map[];
      sessionCount, nextSession, accepted := 0, 1, 0;
      requested, matched, cancelled, pendingCount, activeCount, serials := 0, 0, 0, 0, 0, 0;
      h := NOTHING_YET;
    }

    // -------------------------------------------------------------- accepting sessions

    method LoadSessionCount(thread: nat) returns (current: Option<nat>)
      modifies this`h
      ensures Model() == LoadCount(config, old(Model()), thread)
      ensures current == if old(sessionCount) >= config.maxSessions then None else Some(old(sessionCount))
      ensures current.Some? ==> thread in h.acceptors && h.acceptors[thread] == Loaded(current.value)
    {
      if sessionCount >= config.maxSessions {
        current := None;
      } else {
        h := h.(acceptors := h.acceptors[thread := Loaded(sessionCount)]);
        current := Some(sessionCount);
      }
    }

    method CompareExchangeSession(thread: nat, current: nat) returns (won: bool)
      requires thread in h.acceptors && h.acceptors[thread] == Loaded(current)
      modifies this`sessionCount, this`h
      ensures Model() == Exchange(old(Model()), thread)
      ensures won <==> old(sessionCount) == current
      ensures won ==> thread in h.acceptors && h.acceptors[thread] == Won
    {
      won := sessionCount == current;
      if won {
        sessionCount := sessionCount + 1;
        h := h.(acceptors := h.acceptors[thread := Won]);
      } else {
        h := h.(acceptors := h.acceptors - {thread});
      }
    }

    method TakeSessionId(thread: nat) returns (id: nat)
      modifies this`nextSession, this`h
      ensures Model() == Name(old(Model()), thread)
      ensures id == old(nextSession) && thread in h.acceptors && h.acceptors[thread] == Named(id)
    {
      id := nextSession;
      nextSession := nextSession + 1;
      h := h.(acceptors := h.acceptors[thread := Named(id)]);
    }

    method CountAccepted(thread: nat, id: nat)
      requires thread in h.acceptors && h.acceptors[thread] == Named(id)
      modifies this`accepted, this`h
      ensures Model() == Admit(old(Model()), thread)
    {
      accepted := accepted + 1;
      h := h.(open := h.open + {id}, counts := h.counts[id := 0], acceptors := h.acceptors - {thread});
    }

    /** The accept loop with no other acceptor between its load and its exchange: it takes a
        slot exactly when one is free. */
    method TryAcceptSession(thread: nat) returns (id: Option<nat>)
      requires thread !in h.acceptors
      modifies this
      ensures id.Some? <==> old(sessionCount) < config.maxSessions
      ensures id == None ==> Model() == old(Model())
      ensures id.Some? ==> id.value == old(nextSession) && id.value in h.open && h.acceptors == old(h.acceptors)
      ensures id.Some? ==> Model() == Accepted(old(Model()), thread)
    {
      var current := LoadSessionCount(thread);
      id := None;
      if current.Some? {
        var won := CompareExchangeSession(thread, current.value);
        if won {
          var taken := TakeSessionId(thread);
          CountAccepted(thread, taken);
          id := Some(taken);
          assert h.acceptors == old(h.acceptors);
        }
      }
    }

    /** All the steps of an acceptor, one after the other. */
    ghost function Accepted(s: State, thread: nat): State
      requires s.sessionCount < config.maxSessions
    {
      Admit(Name(Exchange(LoadCount(config, s, thread), thread), thread), thread)
    }

    // -------------------------------------------------------------- pairing

    ghost function Asked(session: nat, isInitiator: bool, token: Token, streamId: nat, now: nat): Event {
      FinishPair(session, isInitiator, token, streamId, now)
    }

    method BeginPair(session: nat, pairingCount: nat) returns (admitted: bool)
      requires session in h.counts && h.counts[session] == pairingCount
      modifies this`requested, this`h
      ensures Model() == Begin(config, old(Model()), session)
      ensures admitted <==> pairingCount < config.maxPairingsPerSession
    {
      admitted := pairingCount < config.maxPairingsPerSession;
      if admitted {
        requested := requested + 1;
        h := h.(busy := h.busy + {session});
      }
    }

    /** The locked part of a pair request: find or create the entry, then take its slot. */
    method FinishPairing(session: nat, isInitiator: bool, token: Token, streamId: nat, now: nat)
      returns (outcome: PairOutcome)
      requires session in h.counts
      modifies this
      ensures Model() == Finish(old(Model()), Asked(session, isInitiator, token, streamId, now))
      ensures outcome == OutcomeOf(old(Model()), Asked(session, isInitiator, token, streamId, now))
    {
      var pair := if token in pairing then pairing[token] else NO_LINKS;
      if pair.Slot(isInitiator).Some? {
        h := h.(busy := h.busy - {session}, duplicates := h.duplicates + 1);
        outcome := AlreadyPairing;
      } else {
        outcome := TakeSlot(session, isInitiator, token, streamId, now, pair);
      }
    }

    /** The slot of the role is free: wait in it, or complete the pair. */
    method TakeSlot(session: nat, isInitiator: bool, token: Token, streamId: nat, now: nat, pair: Pending)
      returns (outcome: PairOutcome)
      requires session in h.counts && pair == PairOf(Model(), token) && pair.Slot(isInitiator).None?
      modifies this
      ensures Model() == Finish(old(Model()), Asked(session, isInitiator, token, streamId, now))
      ensures outcome == OutcomeOf(old(Model()), Asked(session, isInitiator, token, streamId, now))
    {
      var link := Link(session, isInitiator, streamId, now, serials, token);
      var filled := pair.With(isInitiator, Some(link));
      serials := serials + 1;
      match filled.Slot(!isInitiator) {
        case None =>
          pairing := pairing[token := filled];
          pendingCount := pendingCount + 1;
          h := h.(busy := h.busy - {session}, counts := h.counts[session := h.counts[session] + 1]);
          outcome := Waiting;
        case Some(other) =>
          pairing := pairing - {token};
          pendingCount := pendingCount - 1;
          matched := matched + 1;
          activeCount := activeCount + 1;
          outcome := Matched(Match(token, other, link));
          h := h.(busy := h.busy - {session}, matches := h.matches + [outcome.pairing]);
      }
    }

    method TryPair(session: nat, isInitiator: bool, token: Token, streamId: nat, pairingCount: nat, now: nat)
      returns (outcome: PairOutcome)
      requires session in h.counts && h.counts[session] == pairingCount
      modifies this
      ensures outcome.LimitExceeded? <==> pairingCount >= config.maxPairingsPerSession
      ensures outcome.LimitExceeded? ==> Model() == old(Model())
      ensures !outcome.LimitExceeded? ==>
                Model() == Finish(Begin(config, old(Model()), session),
                                  Asked(session, isInitiator, token, streamId, now))
      ensures h.counts == if outcome.Waiting? then old(h.counts)[session := pairingCount + 1] else old(h.counts)
      ensures h.matches == if outcome.Matched? then old(h.matches) + [outcome.pairing] else old(h.matches)
    {
      hide Finish, OutcomeOf;
      var admitted := BeginPair(session, pairingCount);
      if admitted {
        OutcomeTells(Model(), Asked(session, isInitiator, token, streamId, now));
        outcome := FinishPairing(session, isInitiator, token, streamId, now);
      } else {
        outcome := LimitExceeded;
      }
    }

    // -------------------------------------------------------------- unpairing

    /** Clear the slots of `pair` that `session` holds, one slot at a time. */
    static method ClearSlots(pair: Pending, session: nat) returns (left: Pending, found: bool)
      ensures left == pair.Without(session)
      ensures found <==> pair.HeldBy(session)
    {
      left, found := pair, false;
      for i := 0 to 2
        invariant left.acceptor == if i > 0 then Drop(pair.acceptor, session) else pair.acceptor
        invariant left.initiator == if i > 1 then Drop(pair.initiator, session) else pair.initiator
        invariant found <==> (i > 0 && Holds(pair.acceptor, session)) || (i > 1 && Holds(pair.initiator, session))
      {
        if Holds(left.Slot(i == 1), session) {
          left := left.With(i == 1, None);
          found := true;
        }
      }
    }

    method Unpair(session: nat, token: Token) returns (outcome: UnpairOutcome)
      requires session in h.counts
      modifies this
      ensures Model() == if token in old(pairing) then Cancel(old(Model()), session, token)
                         else TearDown(old(Model()), token)
      ensures outcome.Cancelled? <==> token in old(pairing) && old(pairing)[token].HeldBy(session)
      ensures outcome.Destroyed? <==> token !in old(pairing) && token in old(active)
      ensures h.counts == if outcome.Cancelled? then Lowered(old(h.counts), session) else old(h.counts)
      ensures h.matches == old(h.matches)
    {
      hide Cancel, TearDown;
      if token in pairing {
        outcome := UnpairPending(session, token);
      } else {
        outcome := UnpairActive(token);
      }
    }

    method UnpairPending(session: nat, token: Token) returns (outcome: UnpairOutcome)
      requires session in h.counts && token in pairing
      modifies this`pairing, this`cancelled, this`pendingCount, this`h
      ensures Model() == Cancel(old(Model()), session, token)
      ensures outcome == if old(pairing)[token].HeldBy(session) then Cancelled else NotFound
      ensures h == old(h).(counts := h.counts)
      ensures h.counts == if outcome.Cancelled? then Lowered(old(h.counts), session) else old(h.counts)
    {
      var pair, found := ClearSlots(pairing[token], session);
      if found {
        pairing := if pair.Empty() then pairing - {token} else pairing[token := pair];
        cancelled := cancelled + 1;
        pendingCount := pendingCount - 1;
        h := h.(counts := Lowered(h.counts, session));
        outcome := Cancelled;
      } else {
        outcome := NotFound;
      }
    }

    method UnpairActive(token: Token) returns (outcome: UnpairOutcome)
      modifies this`active, this`activeCount, this`h
      ensures Model() == TearDown(old(Model()), token)
      ensures outcome == if token in old(active) then Destroyed else NotFound
      ensures h == old(h).(signals := h.signals)
    {
      if token in active {
        h := h.(signals := h.signals + multiset{Signal(token, active[token])});
        active := active - {token};
        activeCount := activeCount - 1;
        outcome := Destroyed;
      } else {
        outcome := NotFound;
      }
    }

    /** Register the streams wired for the `k`-th match. */
    method MarkActive(ghost k: nat, token: Token, first: nat, second: nat)
      requires k < |h.matches| && k !in h.marked
      requires token == h.matches[k].token && first == h.matches[k].first.session &&
               second == h.matches[k].second.session
      modifies this`active, this`h
      ensures Model() == Mark(old(Model()), k)
    {
      active := active[token := Active(first, second)];
      h := h.(marked := h.marked + {k});
    }

    // -------------------------------------------------------------- release and sweep

    /** Release a session: give back its slot, then drop its pending links, then tear down
        the active pairings it is part of. */
    method ReleaseSession(session: nat)
      requires sessionCount > 0
      modifies this
      ensures Model() == ClearActive(ClearPending(BeginRelease(old(Model()), session), session), session)
    {
      hide ClearActive, ClearPending;
      GiveBackSlot(session);
      DropPending(session);
      TearDownActive(session);
    }

    method GiveBackSlot(session: nat)
      requires sessionCount > 0
      modifies this`sessionCount, this`h
      ensures Model() == BeginRelease(old(Model()), session)
    {
      sessionCount := sessionCount - 1;
      h := h.(open := h.open - {session}, closing := h.closing + {session});
    }

    method DropPending(session: nat)
      modifies this`pairing, this`cancelled, this`pendingCount, this`h
      ensures Model() == ClearPending(old(Model()), session)
    {
      RetainPending(session);
      h := h.(cleared := h.cleared + {session});
      RetainAll(old(pairing), old(pairing).Keys, session);
    }

    /** Visit every entry in some order, clear the session's slots and drop emptied entries. */
    method RetainPending(session: nat)
      modifies this`pairing, this`cancelled, this`pendingCount
      ensures pairing == Retained(old(pairing), old(pairing).Keys, session)
      ensures cancelled == old(cancelled) + |OnlyHeldBy(old(pairing), session)|
      ensures pendingCount == old(pendingCount) - |OnlyHeldBy(old(pairing), session)|
    {
      hide OnlyHeldBy, Retained;
      ghost var before := pairing;
      ghost var gone := OnlyHeldBy(before, session);
      var rest := pairing.Keys;
      ghost var done: set<Token> := {};
      RetainNone(before, session);
      while rest != {}
        invariant rest !! done && rest + done == before.Keys
        invariant pairing == Retained(before, done, session)
        invariant cancelled == old(cancelled) + |gone * done|
        invariant pendingCount == old(pendingCount) - |gone * done|
      {
        var token :| token in rest;
        RetainOne(before, done, session, token);
        RetainEntry(session, token);
        rest, done := rest - {token}, done + {token};
      }
      RetainAll(before, done, session);
    }

    method RetainEntry(session: nat, token: Token)
      requires token in pairing
      modifies this`pairing, this`cancelled, this`pendingCount
      ensures if old(pairing)[token].HeldBy(session) && old(pairing)[token].Without(session).Empty() then
                && pairing == old(pairing) - {token}
                && cancelled == old(cancelled) + 1 && pendingCount == old(pendingCount) - 1
              else
                && pairing == old(pairing)[token := old(pairing)[token].Without(session)]
                && cancelled == old(cancelled) && pendingCount == old(pendingCount)
    {
      var pair, touched := ClearSlots(pairing[token], session);
      if touched && pair.Empty() {
        cancelled := cancelled + 1;
        pendingCount := pendingCount - 1;
        pairing := pairing - {token};
      } else {
        pairing := pairing[token := pair];
      }
    }

    method TearDownActive(session: nat)
      modifies this`active, this`activeCount, this`h
      ensures Model() == ClearActive(old(Model()), session)
    {
      RetainActive(session);
    }

    method RetainActive(session: nat)
      modifies this`active, this`activeCount, this`h
      ensures var gone := Naming(old(active), session);
              && active == old(active) - gone
              && activeCount == old(activeCount) - |gone|
              && h == old(h).(signals := old(h.signals) + multiset(SignalsFor(old(active), gone)))
    {
      hide Torn;
      ghost var before, signals := active, h.signals;
      var rest := active.Keys;
      ghost var done: set<Token> := {};
      TornNone(before, session);
      while rest != {}
        invariant rest !! done && rest + done == before.Keys
        invariant active == Torn(before, done, session).active
        invariant activeCount == old(activeCount) - Torn(before, done, session).count
        invariant h == old(h).(signals := signals + Torn(before, done, session).signals)
      {
        var token :| token in rest;
        TornOne(before, done, session, token, signals);
        TearDownEntry(session, token);
        rest, done := rest - {token}, done + {token};
      }
      TornAll(before, done, session);
    }

    method TearDownEntry(session: nat, token: Token)
      requires token in active
      modifies this`active, this`activeCount, this`h
      ensures if Names(old(active)[token], session) then
                && active == old(active) - {token} && activeCount == old(activeCount) - 1
                && h == old(h).(signals := old(h.signals) + multiset{Signal(token, old(active)[token])})
              else active == old(active) && activeCount == old(activeCount) && h == old(h)
    {
      if Names(active[token], session) {
        h := h.(signals := h.signals + multiset{Signal(token, active[token])});
        activeCount := activeCount - 1;
        active := active - {token};
      }
    }

    /** Drop the pending entries whose oldest link is past the timeout; count them by size. */
    method SweepExpiredPairings(now: nat) returns (dropped: nat)
      modifies this`pairing, this`cancelled, this`pendingCount
      ensures Model() == SweepAt(config, old(Model()), now)
      ensures dropped == |ExpiredTokens(config, old(pairing), now)|
    {
      var before := |pairing|;
      RetainFresh(now);
      Dropped(old(pairing), ExpiredTokens(config, old(pairing), now));
      dropped := before - |pairing|;
      if dropped > 0 {
        cancelled := cancelled + dropped;
        pendingCount := pendingCount - dropped;
      }
    }

    method RetainFresh(now: nat)
      modifies this`pairing
      ensures pairing == old(pairing) - ExpiredTokens(config, old(pairing), now)
    {
      hide Expired, ExpiredTokens;
      ghost var before := pairing;
      ghost var gone := ExpiredTokens(config, before, now);
      var rest := pairing.Keys;
      ghost var done: set<Token> := {};
      assert gone * done == {};
      while rest != {}
        invariant rest !! done && rest + done == before.Keys
        invariant pairing == before - (gone * done)
      {
        var token :| token in rest;
        ExpiredOne(config, before, done, now, token);
        if Expired(config, pairing[token], now) {
          pairing := pairing - {token};
        }
        rest, done := rest - {token}, done + {token};
      }
      ExpiredAll(config, before, done, now);
    }
  }

  /** The table part way through a release: `done` entries are cleared, and dropped if empty. */
  ghost function Retained(m: map<Token, Pending>, done: set<Token>, session: nat): map<Token, Pending> {
    map t | t in m && !(t in done && t in OnlyHeldBy(m, session)) ::
      if t in done then m[t].Without(session) else m[t]
  }

  lemma RetainOne(m: map<Token, Pending>, done: set<Token>, session: nat, t: Token)
    requires t in m && t !in done
    ensures t in Retained(m, done, session) && Retained(m, done, session)[t] == m[t]
    ensures var gone := OnlyHeldBy(m, session);
            if m[t].HeldBy(session) && m[t].Without(session).Empty() then
              && Retained(m, done + {t}, session) == Retained(m, done, session) - {t}
              && |gone * (done + {t})| == |gone * done| + 1
            else
              && Retained(m, done + {t}, session) == Retained(m, done, session)[t := m[t].Without(session)]
              && gone * (done + {t}) == gone * done
  {
    DoneOne(OnlyHeldBy(m, session), done, t);
  }

  lemma RetainNone(m: map<Token, Pending>, session: nat)
    ensures Retained(m, {}, session) == m && OnlyHeldBy(m, session) * {} == {}
  {
  }

  lemma RetainAll(m: map<Token, Pending>, done: set<Token>, session: nat)
    requires done == m.Keys
    ensures OnlyHeldBy(m, session) * done == OnlyHeldBy(m, session)
    ensures Retained(m, done, session) ==
      map t | t in m && t !in OnlyHeldBy(m, session) :: m[t].Without(session)
  {
  }

  lemma DoneOne<T>(gone: set<T>, done: set<T>, x: T)
    requires x !in done
    ensures gone * (done + {x}) == if x in gone then gone * done + {x} else gone * done
    ensures |gone * (done + {x})| == if x in gone then |gone * done| + 1 else |gone * done|
  {
    assert gone * (done + {x}) == if x in gone then gone * done + {x} else gone * done;
  }

  datatype Teardown = Teardown(active: map<Token, Active>, signals: multiset<Signal>, count: nat)

  /** Part way through a release: what of the `done` entries names the session is gone. */
  ghost function Torn(m: map<Token, Active>, done: set<Token>, session: nat): Teardown {
    var gone := Naming(m, session) * done;
    Teardown(m - gone, multiset(SignalsFor(m, gone)), |gone|)
  }

  lemma TornNone(m: map<Token, Active>, session: nat)
    ensures Torn(m, {}, session) == Teardown(m, multiset{}, 0)
  {
    assert Naming(m, session) * {} == {};
    assert SignalsFor(m, {}) == {};
    assert m - {} == m;
  }

  lemma TornOne(m: map<Token, Active>, done: set<Token>, session: nat, t: Token, signals: multiset<Signal>)
    requires t in m && t !in done
    ensures var p, q := Torn(m, done, session), Torn(m, done + {t}, session);
            && t in p.active && p.active[t] == m[t]
            && if Names(m[t], session) then
                 && q.active == p.active - {t} && q.count == p.count + 1
                 && signals + q.signals == signals + p.signals + multiset{Signal(t, m[t])}
               else q == p
  {
    var gone := Naming(m, session);
    DoneOne(gone, done, t);
    if Names(m[t], session) {
      OneMoreSignal(m, gone * done, t);
      assert m - gone * (done + {t}) == m - gone * done - {t};
    }
  }

  lemma TornAll(m: map<Token, Active>, done: set<Token>, session: nat)
    requires done == m.Keys
    ensures var gone := Naming(m, session);
            Torn(m, done, session) == Teardown(m - gone, multiset(SignalsFor(m, gone)), |gone|)
  {
    assert Naming(m, session) * done == Naming(m, session);
  }

  lemma OneMoreSignal(m: map<Token, Active>, some: set<Token>, token: Token)
    requires some + {token} <= m.Keys && token !in some
    ensures multiset(SignalsFor(m, some + {token})) == multiset(SignalsFor(m, some)) + multiset{Signal(token, m[token])}
  {
    assert SignalsFor(m, some + {token}) == SignalsFor(m, some) + {Signal(token, m[token])};
  }

  lemma ExpiredOne(c: Config, m: map<Token, Pending>, done: set<Token>, now: nat, t: Token)
    requires t in m && t !in done
    ensures var gone := ExpiredTokens(c, m, now);
            && t in m - gone * done
            && m - gone * (done + {t}) == if Expired(c, m[t], now) then m - gone * done - {t} else m - gone * done
  {
    hide Expired;
    DoneOne(ExpiredTokens(c, m, now), done, t);
  }

  lemma ExpiredAll(c: Config, m: map<Token, Pending>, done: set<Token>, now: nat)
    requires done == m.Keys
    ensures m - ExpiredTokens(c, m, now) * done == m - ExpiredTokens(c, m, now)
  {
  }

  lemma Dropped(m: map<Token, Pending>, gone: set<Token>)
    requires gone <= m.Keys
    ensures |m - gone| == |m| - |gone|
  {
    assert (m - gone).Keys == m.Keys - gone;
  }

  /** A wire message as the session's decoder sees it. */
  datatype Message =
    | Pair(isInitiator: bool, token: Token, streamId: nat)
    | Unpair(token: Token)
    | Malformed
    | Unknown

  /** One accepted connection: its own pairing counter over the shared server. */
  class BlindRelaySession {
    const session: nat
    const server: BlindRelayServer
    var pairingCount: nat
    var matchedOut: seq<Match>

    /** The session's counter is the one the server's history records for it. */
    ghost predicate Valid()
      reads this, server
    {
      session in server.h.counts && server.h.counts[session] == pairingCount
    }

    constructor (session: nat, server: BlindRelayServer)
      requires session in server.h.counts && server.h.counts[session] == 0
      ensures Valid() && this.session == session && this.server == server && pairingCount == 0 && matchedOut == []
    {
      this.session := session;
      this.server := server;
      pairingCount, matchedOut := 0, [];
    }

    method OnMessage(msg: Message, now: nat)
      requires Valid()
      modifies this, server
      ensures Valid()
      ensures msg.Pair? && old(pairingCount) < server.config.maxPairingsPerSession ==>
                server.Model() == Finish(Begin(server.config, old(server.Model()), session),
                                         FinishPair(session, msg.isInitiator, msg.token, msg.streamId, now))
      ensures msg.Unpair? ==>
                server.Model() == if msg.token in old(server.pairing)
                  then Cancel(old(server.Model()), session, msg.token)
                                  else TearDown(old(server.Model()), msg.token)
      ensures (msg.Pair? && old(pairingCount) >= server.config.maxPairingsPerSession) || msg.Malformed? ||
              msg.Unknown? ==>
                server.Model() == old(server.Model())
      ensures matchedOut == old(matchedOut) + server.h.matches[|old(server.h.matches)|..]
    {
      hide Finish, Begin, Cancel, TearDown;
      match msg
      case Pair(isInitiator, token, streamId) =>
        var outcome := server.TryPair(session, isInitiator, token, streamId, pairingCount, now);
        match outcome {
          case Waiting => pairingCount := pairingCount + 1;
          case Matched(made) => matchedOut := matchedOut + [made];
          case _ =>
        }
      case Unpair(token) =>
        var outcome := server.Unpair(session, token);
        if outcome == Cancelled {
          pairingCount := if pairingCount > 0 then pairingCount - 1 else 0;
        }
      case _ =>
    }
  }
}

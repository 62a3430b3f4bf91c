/** The blind-relay pairing engine as a state machine: each step is one critical section
    (or atomic operation), so that any interleaving of sessions is a sequence of steps. */
module RelaySpec {
  import opened Options

  type Token = seq<bv8>

  datatype Config = Config(maxSessions: nat, maxPairingsPerSession: nat, pairingTimeout: nat)

  /** One side of a pairing. As history, `serial` numbers the accepted links in order of
      registration and `token` is the token each was registered under. */
  datatype Link = Link(session: nat, isInitiator: bool, streamId: nat, createdAt: nat, serial: nat, token: Token)

  /** The two slots of a pending pairing, by role. */
  datatype Pending = Pending(acceptor: Option<Link>, initiator: Option<Link>) {
    function Slot(isInitiator: bool): Option<Link> {
      if isInitiator then initiator else acceptor
    }

    function With(isInitiator: bool, link: Option<Link>): Pending {
      if isInitiator then this.(initiator := link) else this.(acceptor := link)
    }

    function Empty(): bool {
      acceptor.None? && initiator.None?
    }

    /** Clear the slots that `session` holds. */
    function Without(session: nat): Pending {
      Pending(Drop(acceptor, session), Drop(initiator, session))
    }

    predicate HeldBy(session: nat) {
      Holds(acceptor, session) || Holds(initiator, session)
    }
  }

  predicate Holds(slot: Option<Link>, session: nat) {
    slot.Some? && slot.value.session == session
  }

  function Drop(slot: Option<Link>, session: nat): Option<Link> {
    if Holds(slot, session) then None else slot
  }

  const NO_LINKS := Pending(None, None)

  datatype Active = Active(first: nat, second: nat)

  /** Both sides of a matched token, first registered first. */
  datatype Match = Match(token: Token, first: Link, second: Link)

  datatype Signal = Signal(token: Token, pairing: Active)

  /** How far a thread has got with accepting a session: it has loaded the count, raised it, or
      also taken an id. */
  datatype Acceptor = Loaded(count: nat) | Won | Named(id: nat)

  /** The open and closing sessions, those whose pending links are dropped, those inside a
      pair request, the session-local pairing counters, the threads that are accepting a
      session, every match, the matches whose streams were registered, and the teardown
      signals. */
  datatype History = History(
    open: set<nat>,
    closing: set<nat>,
    cleared: set<nat>,
    busy: set<nat>,
    counts: map<nat, nat>,
    acceptors: map<nat, Acceptor>,
    duplicates: nat,
    matches: seq<Match>,
    marked: set<nat>,
    signals: multiset<Signal>)

  /** The shared server state, with what the sessions have done to it. */
  datatype State = State(
    pairing: map<Token, Pending>,
    active: map<Token, Active>,
    sessionCount: nat,
    nextSession: nat,
    accepted: nat,
    requested: nat,
    matched: nat,
    cancelled: nat,
    pendingCount: int,
    activeCount: int,
    serials: nat,
    h: History)

  const NOTHING_YET: History := History({}, {}, {}, {}, map[], map[], 0, [], {}, multiset{})

  const INITIAL: State := State(map[], map[], 0, 1, 0, 0, 0, 0, 0, 0, 0, NOTHING_YET)

  datatype Event =
    | Load(thread: nat)
    | CompareExchange(thread: nat)
    | TakeId(thread: nat)
    | CountSession(thread: nat)
    | BeginPair(session: nat)
    | FinishPair(session: nat, isInitiator: bool, token: Token, streamId: nat, now: nat)
    | Unpair(session: nat, token: Token)
    | UnpairActive(token: Token)
    | MarkActive(index: nat)
    | Release(session: nat)
    | ReleasePending(session: nat)
    | ReleaseActive(session: nat)
    | Sweep(now: nat)

  /** When a step can happen: a session is one task, so it is inside at most one request. */
  predicate Enabled(s: State, e: Event) {
    match e
    case Load(t) => t !in s.h.acceptors
    case CompareExchange(t) => t in s.h.acceptors && s.h.acceptors[t].Loaded?
    case TakeId(t) => t in s.h.acceptors && s.h.acceptors[t].Won?
    case CountSession(t) => t in s.h.acceptors && s.h.acceptors[t].Named?
    case BeginPair(i) => i in s.h.open && i !in s.h.busy && i in s.h.counts
    case FinishPair(i, _, _, _, _) => i in s.h.busy && i in s.h.counts
    case Unpair(i, _) => i in s.h.open && i !in s.h.busy && i in s.h.counts
    case UnpairActive(_) => true
    case MarkActive(k) => k < |s.h.matches| && k !in s.h.marked
    case Release(i) => i in s.h.open && i !in s.h.busy
    case ReleasePending(i) => i in s.h.closing
    case ReleaseActive(i) => i in s.h.closing
    case Sweep(_) => true
  }

  // ---------------------------------------------------------------- accepting sessions

  function LoadCount(c: Config, s: State, thread: nat): State {
    if s.sessionCount >= c.maxSessions then s
    else s.(h := s.h.(acceptors := s.h.acceptors[thread := Loaded(s.sessionCount)]))
  }

  /** Raises the count if it is still what was loaded. */
  function Exchange(s: State, thread: nat): State
    requires thread in s.h.acceptors && s.h.acceptors[thread].Loaded?
  {
    if s.sessionCount == s.h.acceptors[thread].count then
      s.(sessionCount := s.sessionCount + 1, h := s.h.(acceptors := s.h.acceptors[thread := Won]))
    else s.(h := s.h.(acceptors := s.h.acceptors - {thread}))
  }

  function Name(s: State, thread: nat): State {
    s.(nextSession := s.nextSession + 1, h := s.h.(acceptors := s.h.acceptors[thread := Named(s.nextSession)]))
  }

  /** Counts the session as accepted, which opens it. */
  function Admit(s: State, thread: nat): State
    requires thread in s.h.acceptors && s.h.acceptors[thread].Named?
  {
    var id := s.h.acceptors[thread].id;
    s.(accepted := s.accepted + 1,
       h := s.h.(open := s.h.open + {id}, counts := s.h.counts[id := 0], acceptors := s.h.acceptors - {thread}))
  }

  // ---------------------------------------------------------------- pairing

  function Begin(c: Config, s: State, session: nat): State
    requires session in s.h.counts
  {
    if s.h.counts[session] >= c.maxPairingsPerSession then s
    else s.(requested := s.requested + 1, h := s.h.(busy := s.h.busy + {session}))
  }

  function PairOf(s: State, token: Token): Pending {
    if token in s.pairing then s.pairing[token] else NO_LINKS
  }

  function NewLink(s: State, e: Event): Link
    requires e.FinishPair?
  {
    Link(e.session, e.isInitiator, e.streamId, e.now, s.serials, e.token)
  }

  function Finish(s: State, e: Event): State
    requires e.FinishPair? && e.session in s.h.counts
  {
    var pair := PairOf(s, e.token);
    var h := s.h.(busy := s.h.busy - {e.session});
    if pair.Slot(e.isInitiator).Some? then s.(h := h.(duplicates := h.duplicates + 1))
    else
      var link := NewLink(s, e);
      match pair.Slot(!e.isInitiator)
      case None =>
        s.(pairing := s.pairing[e.token := pair.With(e.isInitiator, Some(link))],
           serials := s.serials + 1,
           pendingCount := s.pendingCount + 1,
           h := h.(counts := h.counts[e.session := h.counts[e.session] + 1]))
      case Some(other) =>
        s.(pairing := s.pairing - {e.token},
           serials := s.serials + 1,
           pendingCount := s.pendingCount - 1,
           matched := s.matched + 1,
           activeCount := s.activeCount + 1,
           h := h.(matches := h.matches + [Match(e.token, other, link)]))
  }

  /** Subtract one, stopping at zero. */
  function Lowered(counts: map<nat, nat>, session: nat): map<nat, nat>
    requires session in counts
  {
    counts[session := if counts[session] > 0 then counts[session] - 1 else 0]
  }

  function Cancel(s: State, session: nat, token: Token): State
    requires session in s.h.counts
  {
    if token !in s.pairing || !s.pairing[token].HeldBy(session) then s
    else
      var pair := s.pairing[token].Without(session);
      s.(pairing := if pair.Empty() then s.pairing - {token} else s.pairing[token := pair],
         cancelled := s.cancelled + 1, pendingCount := s.pendingCount - 1,
         h := s.h.(counts := Lowered(s.h.counts, session)))
  }

  // ---------------------------------------------------------------- active pairings

  function TearDown(s: State, token: Token): State {
    if token !in s.active then s
    else s.(active := s.active - {token}, activeCount := s.activeCount - 1,
            h := s.h.(signals := s.h.signals + multiset{Signal(token, s.active[token])}))
  }

  function Mark(s: State, k: nat): State
    requires k < |s.h.matches|
  {
    var m := s.h.matches[k];
    s.(active := s.active[m.token := Active(m.first.session, m.second.session)], h := s.h.(marked := s.h.marked + {k}))
  }

  // ---------------------------------------------------------------- release and sweep

  function BeginRelease(s: State, session: nat): State {
    s.(sessionCount := if s.sessionCount > 0 then s.sessionCount - 1 else 0,
       h := s.h.(open := s.h.open - {session}, closing := s.h.closing + {session}))
  }

  /** Entries all of whose links belong to `session`. */
  function OnlyHeldBy(m: map<Token, Pending>, session: nat): set<Token> {
    set t | t in m && m[t].HeldBy(session) && m[t].Without(session).Empty()
  }

  function ClearPending(s: State, session: nat): State {
    var gone := OnlyHeldBy(s.pairing, session);
    s.(pairing := map t | t in s.pairing && t !in gone :: s.pairing[t].Without(session),
       cancelled := s.cancelled + |gone|, pendingCount := s.pendingCount - |gone|,
       h := s.h.(cleared := s.h.cleared + {session}))
  }

  predicate Names(a: Active, session: nat) {
    a.first == session || a.second == session
  }

  function Naming(m: map<Token, Active>, session: nat): set<Token> {
    set t | t in m && Names(m[t], session)
  }

  function SignalsFor(m: map<Token, Active>, gone: set<Token>): set<Signal>
    requires gone <= m.Keys
  {
    set t | t in gone :: Signal(t, m[t])
  }

  function ClearActive(s: State, session: nat): State {
    var gone := Naming(s.active, session);
    s.(active := s.active - gone, activeCount := s.activeCount - |gone|,
       h := s.h.(signals := s.h.signals + multiset(SignalsFor(s.active, gone))))
  }

  function Oldest(p: Pending): Option<nat> {
    match (p.acceptor, p.initiator)
    case (Some(a), Some(b)) => Some(if a.createdAt <= b.createdAt then a.createdAt else b.createdAt)
    case (Some(a), None) => Some(a.createdAt)
    case (None, Some(b)) => Some(b.createdAt)
    case (None, None) => None
  }

  predicate Expired(c: Config, p: Pending, now: nat) {
    match Oldest(p)
    case Some(t) => now > t + c.pairingTimeout
    case None => false
  }

  function ExpiredTokens(c: Config, m: map<Token, Pending>, now: nat): set<Token> {
    set t | t in m && Expired(c, m[t], now)
  }

  function SweepAt(c: Config, s: State, now: nat): State {
    var gone := ExpiredTokens(c, s.pairing, now);
    s.(pairing := s.pairing - gone, cancelled := s.cancelled + |gone|, pendingCount := s.pendingCount - |gone|)
  }

  function Step(c: Config, s: State, e: Event): State
    requires Enabled(s, e)
  {
    match e
    case Load(t) => LoadCount(c, s, t)
    case CompareExchange(t) => Exchange(s, t)
    case TakeId(t) => Name(s, t)
    case CountSession(t) => Admit(s, t)
    case BeginPair(i) => Begin(c, s, i)
    case FinishPair(_, _, _, _, _) => Finish(s, e)
    case Unpair(i, t) => Cancel(s, i, t)
    case UnpairActive(t) => TearDown(s, t)
    case MarkActive(k) => Mark(s, k)
    case Release(i) => BeginRelease(s, i)
    case ReleasePending(i) => ClearPending(s, i)
    case ReleaseActive(i) => ClearActive(s, i)
    case Sweep(now) => SweepAt(c, s, now)
  }
}

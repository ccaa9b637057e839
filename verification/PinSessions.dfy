/** PIN sessions, their done channels and the single-use WebSocket tickets of
    internal/server/pin_guard.go. Every operation holds the mutex once, so `Step` is one operation;
    handlers that call two of them are two steps, with anything in between. Tokens, tickets and
    channels are modelled as fresh; the history fields `issued`, `ticketed` and `held` record what
    was handed out. Times are nanoseconds. */
module PinSessions {
  import opened Basics

  const IDLE_MAX_AGE := 86_400_000_000_000
  const TICKET_AGE := 30_000_000_000
  const HOUR := 3_600_000_000_000

  type Channel = nat

  datatype Session = Session(lastSeen: int, done: Channel)
  datatype Ticket = Ticket(expiresAt: int, session: string)

  datatype State = State(
    sessions: map<string, Session>, tickets: map<string, Ticket>,
    made: set<Channel>, closed: set<Channel>,
    /** The channel each session token was issued with. */
    issued: map<string, Channel>,
    ticketed: set<string>,
    /** The channels streams wait on, with the session they belong to. */
    held: set<(string, Channel)>)

  const INITIAL := State(map[], map[], {}, {}, map[], {}, {})

  datatype Event =
    | Authorize(token: string, now: int)
    | Create(token: string, channel: Channel, now: int)
    | Revoke(token: string)
    | CreateTicket(token: string, ticket: string, now: int)
    | Consume(ticket: string, now: int)
    | Watch(token: string, channel: Channel)

  predicate Enabled(s: State, e: Event) {
    match e
    case Create(token, channel, _) => token != "" && token !in s.issued && channel !in s.made
    case CreateTicket(_, ticket, _) => ticket != "" && ticket !in s.ticketed
    case Watch(_, channel) => channel !in s.made
    case _ => true
  }

  predicate Idle(e: Session, now: int) {
    now - e.lastSeen > IDLE_MAX_AGE
  }

  function DoneChannels(m: map<string, Session>): set<Channel> {
    set t | t in m :: m[t].done
  }

  function IdleTokens(m: map<string, Session>, now: int): set<string> {
    set t | t in m && Idle(m[t], now)
  }

  function IdleSessions(s: State, now: int): map<string, Session> {
    s.sessions - (s.sessions.Keys - IdleTokens(s.sessions, now))
  }

  function ExpiredTickets(m: map<string, Ticket>, now: int): set<string> {
    set k | k in m && m[k].expiresAt <= now
  }

  function TicketsOf(m: map<string, Ticket>, token: string): set<string> {
    set k | k in m && m[k].session == token
  }

  /** pruneExpiredPinSessionsLocked; with no session it does not look at the tickets. */
  function Pruned(s: State, now: int): State {
    if s.sessions == map[] then s
    else s.(sessions := s.sessions - IdleTokens(s.sessions, now),
            closed := s.closed + DoneChannels(IdleSessions(s, now)),
            tickets := s.tickets - ExpiredTickets(s.tickets, now))
  }

  predicate Authorized(s: State, token: string, now: int) {
    token != "" && token in Pruned(s, now).sessions
  }

  /** The session a ticket yields, or "" when it is refused. */
  function Redeemed(s: State, ticket: string, now: int): string {
    var p := Pruned(s, now);
    if ticket != "" && ticket in p.tickets && p.tickets[ticket].expiresAt > now
       && p.tickets[ticket].session in p.sessions
    then p.tickets[ticket].session else ""
  }

  /** The channel a stream of `token` gets: the session's, or `channel`, newly made. */
  function Watched(s: State, token: string, channel: Channel): Channel {
    if token in s.sessions then s.sessions[token].done else channel
  }

  function Step(s: State, e: Event): State
    requires Enabled(s, e)
  {
    match e
    case Authorize(token, now) =>
      if token == "" then s
      else
        var p := Pruned(s, now);
        if token in p.sessions then p.(sessions := p.sessions[token := p.sessions[token].(lastSeen := now)]) else p
    case Create(token, channel, now) =>
      var p := Pruned(s, now);
      p.(sessions := p.sessions[token := Session(now, channel)], made := p.made + {channel},
         issued := p.issued[token := channel])
    case Revoke(token) =>
      if token == "" then s
      else s.(closed := s.closed + (if token in s.sessions then {s.sessions[token].done} else {}),
              sessions := s.sessions - {token},
              tickets := s.tickets - TicketsOf(s.tickets, token))
    case CreateTicket(token, ticket, now) =>
      if token == "" then s
      else
        var p := Pruned(s, now);
        p.(tickets := p.tickets[ticket := Ticket(now + TICKET_AGE, token)], ticketed := p.ticketed + {ticket})
    case Consume(ticket, now) =>
      if ticket == "" then s
      else
        var p := Pruned(s, now);
        p.(tickets := p.tickets - {ticket})
    case Watch(token, channel) =>
      if token == "" then s
      else if token !in s.sessions then
        s.(made := s.made + {channel}, closed := s.closed + {channel}, held := s.held + {(token, channel)})
      else s.(held := s.held + {(token, s.sessions[token].done)})
  }

  // ---- Closing ---------------------------------------------------------------

  /** Closing the done channels of `doomed` one by one would close one twice. */
  ghost predicate ClosesTwice(s: State, doomed: map<string, Session>) {
    || DoneChannels(doomed) * s.closed != {}
    || exists a, b :: a in doomed && b in doomed && a != b && doomed[a].done == doomed[b].done
  }

  /** The sessions an event removes, closing their channels. */
  function Removed(s: State, e: Event): map<string, Session> {
    match e
    case Authorize(token, now) => if token == "" then map[] else IdleSessions(s, now)
    case Create(_, _, now) => IdleSessions(s, now)
    case Revoke(token) => if token != "" && token in s.sessions then map[token := s.sessions[token]] else map[]
    case CreateTicket(token, _, now) => if token == "" then map[] else IdleSessions(s, now)
    case Consume(ticket, now) => if ticket == "" then map[] else IdleSessions(s, now)
    case Watch(_, _) => map[]
  }

  ghost predicate Inv(s: State) {
    && s.closed <= s.made
    && "" !in s.issued
    && s.sessions.Keys <= s.issued.Keys
    && s.tickets.Keys <= s.ticketed
    && (forall t :: t in s.issued ==> s.issued[t] in s.made)
    && (forall t, u :: t in s.issued && u in s.issued && t != u ==> s.issued[t] != s.issued[u])
    && (forall t :: t in s.sessions ==> s.sessions[t].done == s.issued[t])
    && (forall t :: t in s.issued ==> (t in s.sessions <==> s.issued[t] !in s.closed))
    && (forall h :: h in s.held ==> h.1 in s.made)
    && (forall h :: h in s.held && h.1 !in s.closed ==> h.0 in s.sessions && s.issued[h.0] == h.1)
  }

  /** Within the session map, a channel tells its session. */
  lemma ChannelsOfSome(s: State, m: map<string, Session>)
    requires Inv(s) && m.Keys <= s.sessions.Keys && forall t :: t in m ==> m[t] == s.sessions[t]
    ensures DoneChannels(m) <= s.made && DoneChannels(m) !! s.closed
    ensures forall t :: t in s.issued ==> (s.issued[t] in DoneChannels(m) <==> t in m)
  {
    forall t | t in s.issued
      ensures s.issued[t] in DoneChannels(m) <==> t in m
    {
      if s.issued[t] in DoneChannels(m) {
        var u :| u in m && m[u].done == s.issued[t];
        assert s.issued[u] == s.issued[t];
      }
      if t in m {
        assert m[t].done == s.issued[t];
      }
    }
  }

  lemma PruneKeepsInv(s: State, now: int)
    requires Inv(s)
    ensures Inv(Pruned(s, now))
  {
    ChannelsOfSome(s, IdleSessions(s, now));
  }

  lemma RevokeKeepsInv(s: State, token: string)
    requires Inv(s)
    ensures Inv(Step(s, Revoke(token)))
  {
    ChannelsOfSome(s, Removed(s, Revoke(token)));
  }

  lemma CreateKeepsInv(s: State, e: Event)
    requires Inv(s) && Enabled(s, e) && e.Create?
    ensures Inv(Step(s, e))
  {
    PruneKeepsInv(s, e.now);
    AddingKeepsInv(Pruned(s, e.now), e.token, e.channel, e.now);
  }

  lemma AddingKeepsInv(p: State, token: string, channel: Channel, now: int)
    requires Inv(p) && token != "" && token !in p.issued && channel !in p.made
    ensures Inv(p.(sessions := p.sessions[token := Session(now, channel)], made := p.made + {channel},
                   issued := p.issued[token := channel]))
  {
    assert forall t :: t in p.issued ==> p.issued[t] != channel;
    assert forall h :: h in p.held ==> h.1 != channel;
  }

  lemma TouchingKeepsInv(p: State, token: string, now: int)
    requires Inv(p) && token in p.sessions
    ensures Inv(p.(sessions := p.sessions[token := p.sessions[token].(lastSeen := now)]))
  {
  }

  lemma WatchKeepsInv(s: State, e: Event)
    requires Inv(s) && Enabled(s, e) && e.Watch?
    ensures Inv(Step(s, e))
  {
  }

  lemma AuthorizeKeepsInv(s: State, e: Event)
    requires Inv(s) && e.Authorize?
    ensures Inv(Step(s, e))
  {
    PruneKeepsInv(s, e.now);
    if e.token in Pruned(s, e.now).sessions {
      TouchingKeepsInv(Pruned(s, e.now), e.token, e.now);
    }
  }

  lemma TicketsKeepInv(s: State, e: Event)
    requires Inv(s) && Enabled(s, e) && (e.CreateTicket? || e.Consume?)
    ensures Inv(Step(s, e))
  {
    PruneKeepsInv(s, e.now);
  }

  lemma NeverClosesTwice(s: State, e: Event)
    requires Inv(s) && Enabled(s, e)
    ensures !ClosesTwice(s, Removed(s, e))
  {
    ChannelsOfSome(s, Removed(s, e));
  }

  lemma StepKeepsInv(s: State, e: Event)
    requires Inv(s) && Enabled(s, e)
    ensures Inv(Step(s, e))
  {
    match e {
      case Authorize(_, _) => AuthorizeKeepsInv(s, e);
      case Create(_, _, _) => CreateKeepsInv(s, e);
      case Revoke(token) => RevokeKeepsInv(s, token);
      case CreateTicket(_, _, _) => TicketsKeepInv(s, e);
      case Consume(_, _) => TicketsKeepInv(s, e);
      case Watch(_, _) => WatchKeepsInv(s, e);
    }
  }

  ghost predicate IsRun(ss: seq<State>, es: seq<Event>) {
    && |ss| == |es| + 1
    && ss[0] == INITIAL
    && forall i {:trigger Enabled(ss[i], es[i])} :: 0 <= i < |es| ==>
         Enabled(ss[i], es[i]) && ss[i + 1] == Step(ss[i], es[i])
  }

  lemma {:induction false} RunInv(ss: seq<State>, es: seq<Event>, n: nat)
    requires IsRun(ss, es) && n <= |es|
    ensures Inv(ss[n])
  {
    if n > 0 {
      RunInv(ss, es, n - 1);
      StepKeepsInv(ss[n - 1], es[n - 1]);
    }
  }

  /** In every state of every run, an issued session is in the map exactly while its done channel
      is open; no operation ever closes a channel twice; and every channel a stream holds is
      closed unless its session is still in the map. */
  lemma SessionLivesWhileChannelOpen(ss: seq<State>, es: seq<Event>, n: nat)
    requires IsRun(ss, es) && n <= |es|
    ensures forall t :: t in ss[n].issued ==> (t in ss[n].sessions <==> ss[n].issued[t] !in ss[n].closed)
    ensures forall h :: h in ss[n].held && h.0 !in ss[n].sessions ==> h.1 in ss[n].closed
    ensures n < |es| ==> !ClosesTwice(ss[n], Removed(ss[n], es[n]))
  {
    RunInv(ss, es, n);
    if n < |es| {
      NeverClosesTwice(ss[n], es[n]);
    }
  }

  // ---- Gone sessions and tickets stay gone ------------------------------------

  lemma StepKeepsGone(s: State, e: Event)
    requires Enabled(s, e)
    ensures s.issued.Keys <= Step(s, e).issued.Keys && s.ticketed <= Step(s, e).ticketed
    ensures forall t :: t in s.issued && t !in s.sessions ==> t !in Step(s, e).sessions
    ensures forall k :: k in s.ticketed && k !in s.tickets ==> k !in Step(s, e).tickets
    ensures s.closed <= Step(s, e).closed && s.held <= Step(s, e).held
  {
  }

  lemma {:induction false} GoneStaysGone(ss: seq<State>, es: seq<Event>, i: nat, j: nat)
    requires IsRun(ss, es) && i <= j <= |es|
    ensures forall t :: t in ss[i].issued && t !in ss[i].sessions ==> t in ss[j].issued && t !in ss[j].sessions
    ensures forall k :: k in ss[i].ticketed && k !in ss[i].tickets ==> k in ss[j].ticketed && k !in ss[j].tickets
    ensures ss[i].issued.Keys <= ss[j].issued.Keys
    ensures ss[i].closed <= ss[j].closed && ss[i].held <= ss[j].held
    decreases j
  {
    if i < j {
      GoneStaysGone(ss, es, i, j - 1);
      StepKeepsGone(ss[j - 1], es[j - 1]);
    }
  }

  /** Once a session was revoked or pruned, it authorizes nothing and no ticket issued for it, before
      or after, is ever redeemed; every stream that waits on it, then or later, sees its channel
      closed. */
  lemma DeadSessionStaysDead(ss: seq<State>, es: seq<Event>, i: nat, j: nat, token: string)
    requires IsRun(ss, es) && i <= j <= |es|
    requires token in ss[i].issued && token !in ss[i].sessions
    ensures token !in ss[j].sessions
    ensures forall now :: !Authorized(ss[j], token, now)
    ensures forall ticket, now :: Redeemed(ss[j], ticket, now) != token
    ensures forall c :: (token, c) in ss[j].held ==> c in ss[j].closed
  {
    GoneStaysGone(ss, es, i, j);
    RunInv(ss, es, i);
    RunInv(ss, es, j);
  }

  /** Revoking really ends an issued session: the state after it is where the lemma above starts. */
  lemma RevocationEnds(ss: seq<State>, es: seq<Event>, i: nat)
    requires IsRun(ss, es) && i < |es| && es[i].Revoke?
    requires es[i].token in ss[i].issued
    ensures es[i].token in ss[i + 1].issued && es[i].token !in ss[i + 1].sessions
  {
    RunInv(ss, es, i);
    assert Enabled(ss[i], es[i]);
  }

  /** A ticket is redeemed at most once. */
  lemma TicketIsSingleUse(ss: seq<State>, es: seq<Event>, i: nat, j: nat)
    requires IsRun(ss, es) && i < j < |es|
    requires es[i].Consume? && es[j].Consume? && es[i].ticket == es[j].ticket
    requires Redeemed(ss[i], es[i].ticket, es[i].now) != ""
    ensures Redeemed(ss[j], es[j].ticket, es[j].now) == ""
  {
    RunInv(ss, es, i);
    assert Enabled(ss[i], es[i]);
    assert es[i].ticket in ss[i + 1].ticketed && es[i].ticket !in ss[i + 1].tickets;
    GoneStaysGone(ss, es, i + 1, j);
  }

  /** Where a stored ticket comes from. */
  lemma {:induction false} TicketOrigin(ss: seq<State>, es: seq<Event>, n: nat, ticket: string) returns (i: nat)
    requires IsRun(ss, es) && n <= |es|
    requires ticket in ss[n].tickets
    ensures i < n && es[i].CreateTicket? && es[i].ticket == ticket
    ensures es[i].token == ss[n].tickets[ticket].session
    ensures ss[n].tickets[ticket].expiresAt == es[i].now + TICKET_AGE
  {
    assert Enabled(ss[n - 1], es[n - 1]);
    if es[n - 1].CreateTicket? && es[n - 1].ticket == ticket && es[n - 1].token != "" {
      i := n - 1;
    } else {
      assert ticket in ss[n - 1].tickets && ss[n - 1].tickets[ticket] == ss[n].tickets[ticket];
      i := TicketOrigin(ss, es, n - 1, ticket);
    }
  }

  /** A redeemed ticket was created earlier in the run for the session it yields, is presented
      strictly before thirty seconds have passed since, and that session is alive at this moment,
      however revocations fell between authorizing, creating the ticket and redeeming it. */
  lemma RedemptionIsJustified(ss: seq<State>, es: seq<Event>, n: nat) returns (i: nat)
    requires IsRun(ss, es) && n < |es| && es[n].Consume?
    requires Redeemed(ss[n], es[n].ticket, es[n].now) != ""
    ensures i < n && es[i].CreateTicket? && es[i].ticket == es[n].ticket
    ensures es[i].token == Redeemed(ss[n], es[n].ticket, es[n].now)
    ensures es[n].now < es[i].now + TICKET_AGE
    ensures es[i].token in ss[n + 1].sessions
    ensures es[i].token in ss[n + 1].issued && ss[n + 1].issued[es[i].token] !in ss[n + 1].closed
  {
    assert Enabled(ss[n], es[n]);
    RunInv(ss, es, n);
    RunInv(ss, es, n + 1);
    i := TicketOrigin(ss, es, n, es[n].ticket);
  }

  // ---- What stays alive -----------------------------------------------------------------

  /** The clock reading with which an event prunes, if it does. */
  function Prunes(e: Event): Option<int> {
    match e
    case Authorize(token, now) => if token != "" then Some(now) else None
    case Create(_, _, now) => Some(now)
    case CreateTicket(token, _, now) => if token != "" then Some(now) else None
    case Consume(ticket, now) => if ticket != "" then Some(now) else None
    case Revoke(_) => None
    case Watch(_, _) => None
  }

  /** The session is created or used. */
  predicate Uses(e: Event, token: string) {
    (e.Create? || e.Authorize?) && e.token == token
  }

  /** The reading of the last use among events `i` to `j`, the first of which is one. */
  function LastUse(es: seq<Event>, i: nat, j: nat, token: string): int
    requires i < j <= |es| && Uses(es[i], token)
  {
    if j == i + 1 then es[i].now
    else if Uses(es[j - 1], token) then es[j - 1].now
    else LastUse(es, i, j - 1, token)
  }

  /** An event ends a session last used at `last`: it revokes it, or prunes it for being idle. */
  predicate EndsSession(e: Event, token: string, last: int) {
    e == Revoke(token) || (Prunes(e).Some? && Prunes(e).value - last > IDLE_MAX_AGE)
  }

  predicate Ends(es: seq<Event>, i: nat, k: nat, token: string)
    requires i < k < |es| && Uses(es[i], token)
  {
    EndsSession(es[k], token, LastUse(es, i, k, token))
  }

  /** A successful use: a creation, or an authorization that was granted. */
  predicate GoodUse(s: State, e: Event, token: string) {
    token != "" && Uses(e, token) && (e.Authorize? ==> Authorized(s, token, e.now))
  }

  predicate Alive(s: State, token: string, last: int) {
    token in s.sessions && s.sessions[token].lastSeen == last
  }

  lemma {:induction false} GoodUseIsSeen(s: State, e: Event, s': State, token: string)
    requires Enabled(s, e) && s' == Step(s, e) && GoodUse(s, e, token)
    ensures Alive(s', token, e.now) && (Inv(s') ==> token in s'.issued)
  {
  }

  lemma {:induction false} PruneEndsOrKeeps(s: State, now: int, token: string, last: int)
    requires Alive(s, token, last)
    ensures token in Pruned(s, now).sessions <==> now - last <= IDLE_MAX_AGE
    ensures now - last <= IDLE_MAX_AGE ==> Alive(Pruned(s, now), token, last)
  {
  }

  lemma {:induction false} StepEndsOrKeeps(s: State, e: Event, s': State, token: string, last: int)
    requires Inv(s) && Enabled(s, e) && s' == Step(s, e) && token != "" && Alive(s, token, last)
    ensures token in s'.sessions <==> !EndsSession(e, token, last)
    ensures token in s'.sessions ==> Alive(s', token, if Uses(e, token) then e.now else last)
  {
    if Prunes(e).Some? {
      PruneEndsOrKeeps(s, Prunes(e).value, token, last);
    }
    if e.Create? {
      assert token in s.issued && e.token != token;
    }
  }

  lemma {:induction false} LivesOn(ss: seq<State>, es: seq<Event>, i: nat, j: nat, token: string)
    requires IsRun(ss, es) && i < j <= |es| && GoodUse(ss[i], es[i], token)
    requires forall k :: i < k < j ==> !Ends(es, i, k, token)
    ensures Alive(ss[j], token, LastUse(es, i, j, token))
    decreases j
  {
    RunInv(ss, es, j);
    if j == i + 1 {
      GoodUseIsSeen(ss[i], es[i], ss[j], token);
    } else {
      LivesOn(ss, es, i, j - 1, token);
      RunInv(ss, es, j - 1);
      assert !Ends(es, i, j - 1, token);
      StepEndsOrKeeps(ss[j - 1], es[j - 1], ss[j], token, LastUse(es, i, j - 1, token));
    }
  }

  lemma {:induction false} NeverEnded(ss: seq<State>, es: seq<Event>, i: nat, j: nat, token: string)
    requires IsRun(ss, es) && i < j <= |es| && GoodUse(ss[i], es[i], token) && token in ss[j].sessions
    ensures forall k :: i < k < j ==> !Ends(es, i, k, token)
    decreases j
  {
    if j > i + 1 {
      StillIssued(ss, es, i, j - 1, token);
      GoneStaysGone(ss, es, j - 1, j);
      NeverEnded(ss, es, i, j - 1, token);
      LivesOn(ss, es, i, j - 1, token);
      RunInv(ss, es, j - 1);
      StepEndsOrKeeps(ss[j - 1], es[j - 1], ss[j], token, LastUse(es, i, j - 1, token));
    }
  }

  lemma {:induction false} StillIssued(ss: seq<State>, es: seq<Event>, i: nat, j: nat, token: string)
    requires IsRun(ss, es) && i < j <= |es| && GoodUse(ss[i], es[i], token)
    ensures token in ss[j].issued
  {
    RunInv(ss, es, i + 1);
    GoodUseIsSeen(ss[i], es[i], ss[i + 1], token);
    GoneStaysGone(ss, es, i + 1, j);
  }

  /** A session that was created or authorized at event `i` is alive at `j`, its channel open, exactly
      if no event in between ends it: nothing else does, and every use restarts its day. */
  lemma SessionLivesUntilEnded(ss: seq<State>, es: seq<Event>, i: nat, j: nat, token: string)
    requires IsRun(ss, es) && i < j <= |es| && GoodUse(ss[i], es[i], token)
    ensures token in ss[j].issued
    ensures token in ss[j].sessions <==> forall k :: i < k < j ==> !Ends(es, i, k, token)
    ensures token in ss[j].sessions ==> Alive(ss[j], token, LastUse(es, i, j, token))
    ensures token in ss[j].sessions ==> ss[j].issued[token] !in ss[j].closed
  {
    StillIssued(ss, es, i, j, token);
    RunInv(ss, es, j);
    if token in ss[j].sessions {
      NeverEnded(ss, es, i, j, token);
    }
    if forall k :: i < k < j ==> !Ends(es, i, k, token) {
      LivesOn(ss, es, i, j, token);
    }
  }

  /** It is then authorized at a reading exactly if that is at most a day after its last use. */
  lemma LivingSessionIsAuthorized(ss: seq<State>, es: seq<Event>, i: nat, j: nat, token: string, now: int)
    requires IsRun(ss, es) && i < j <= |es| && GoodUse(ss[i], es[i], token)
    ensures Authorized(ss[j], token, now) <==>
              && (forall k :: i < k < j ==> !Ends(es, i, k, token))
              && now - LastUse(es, i, j, token) <= IDLE_MAX_AGE
  {
    SessionLivesUntilEnded(ss, es, i, j, token);
  }

  /** In particular a day is safe: as long as nobody revokes the session, no reading is more than a
      day after the use and no later use was read before it. */
  lemma SessionInUseLives(ss: seq<State>, es: seq<Event>, i: nat, j: nat, token: string, now: int)
    requires IsRun(ss, es) && i < j <= |es| && GoodUse(ss[i], es[i], token)
    requires forall k :: i < k < j ==> es[k] != Revoke(token)
    requires forall k :: i < k < j && Prunes(es[k]).Some? ==> Prunes(es[k]).value - es[i].now <= IDLE_MAX_AGE
    requires forall k :: i < k < j && Uses(es[k], token) ==> es[i].now <= es[k].now
    requires now - es[i].now <= IDLE_MAX_AGE
    ensures token in ss[j].sessions && Authorized(ss[j], token, now)
    ensures token in ss[j].issued && ss[j].issued[token] !in ss[j].closed
  {
    forall k | i < k <= j
      ensures es[i].now <= LastUse(es, i, k, token)
    {
      LastUseIsLater(es, i, k, token);
    }
    SessionLivesUntilEnded(ss, es, i, j, token);
    LivingSessionIsAuthorized(ss, es, i, j, token, now);
  }

  lemma {:induction false} LastUseIsLater(es: seq<Event>, i: nat, j: nat, token: string)
    requires i < j <= |es| && Uses(es[i], token)
    requires forall k :: i < k < j && Uses(es[k], token) ==> es[i].now <= es[k].now
    ensures es[i].now <= LastUse(es, i, j, token)
  {
    if j > i + 1 {
      LastUseIsLater(es, i, j - 1, token);
    }
  }

  /** The last condition is needed: an authorization that read the clock early and got the mutex late
      sets the session back, and it is pruned within a day of its latest use. */
  lemma LateUseShortensSession() returns (ss: seq<State>, es: seq<Event>)
    ensures IsRun(ss, es) && |es| == 4
    ensures es[1] == Authorize("t", 23 * HOUR) && Authorized(ss[1], "t", 23 * HOUR)
    ensures es[2] == Authorize("t", HOUR) && es[3] == Authorize("t", 26 * HOUR)
    ensures !Authorized(ss[3], "t", 26 * HOUR) && "t" !in ss[4].sessions
  {
    es := [Create("t", 0, 0), Authorize("t", 23 * HOUR), Authorize("t", HOUR), Authorize("t", 26 * HOUR)];
    var s1 := Step(INITIAL, es[0]);
    var s2 := Step(s1, es[1]);
    var s3 := Step(s2, es[2]);
    assert s1.sessions == map["t" := Session(0, 0)] && s1.tickets == map[];
    assert s2.sessions == map["t" := Session(23 * HOUR, 0)];
    assert s3.sessions == map["t" := Session(HOUR, 0)];
    ss := [INITIAL, s1, s2, s3, Step(s3, es[3])];
  }

  // ---- Tickets that are good --------------------------------------------------------------

  /** Event `k` takes a ticket away: it presents it, revokes its session, or prunes it as expired. */
  predicate Spends(e: Event, ticket: string, token: string, expiresAt: int) {
    || (e.Consume? && e.ticket == ticket)
    || e == Revoke(token)
    || (Prunes(e).Some? && expiresAt <= Prunes(e).value)
  }

  predicate Stored(s: State, ticket: string, token: string, expiresAt: int) {
    ticket in s.tickets && s.tickets[ticket] == Ticket(expiresAt, token)
  }

  lemma {:induction false} StepSpendsOrKeeps(s: State, e: Event, s': State, ticket: string, token: string,
                                             expiresAt: int)
    requires Inv(s) && Enabled(s, e) && s' == Step(s, e) && token != "" && token in s.sessions
    requires ticket != "" && Stored(s, ticket, token, expiresAt)
    ensures ticket in s'.tickets <==> !Spends(e, ticket, token, expiresAt)
    ensures ticket in s'.tickets ==> Stored(s', ticket, token, expiresAt)
  {
    assert s.sessions != map[];
    if e.CreateTicket? {
      assert ticket in s.ticketed && e.ticket != ticket;
    }
  }

  /** The ticket of event `i`, and its session alive up to `j`. */
  ghost predicate Issues(ss: seq<State>, es: seq<Event>, i: nat, j: nat) {
    && IsRun(ss, es) && i < j <= |es| && es[i].CreateTicket? && es[i].token != ""
    && forall k :: i < k <= j ==> es[i].token in ss[k].sessions
  }

  predicate SpentAt(es: seq<Event>, i: nat, k: nat)
    requires i < k < |es| && es[i].CreateTicket?
  {
    Spends(es[k], es[i].ticket, es[i].token, es[i].now + TICKET_AGE)
  }

  lemma {:induction false} TicketIsStored(s: State, e: Event, s': State)
    requires Enabled(s, e) && s' == Step(s, e) && e.CreateTicket? && e.token != ""
    ensures Stored(s', e.ticket, e.token, e.now + TICKET_AGE) && e.ticket in s'.ticketed && e.ticket != ""
  {
  }

  lemma {:induction false} StoredWhileUnspent(ss: seq<State>, es: seq<Event>, i: nat, j: nat)
    requires Issues(ss, es, i, j) && forall k :: i < k < j ==> !SpentAt(es, i, k)
    ensures Stored(ss[j], es[i].ticket, es[i].token, es[i].now + TICKET_AGE)
    decreases j
  {
    TicketIsStored(ss[i], es[i], ss[i + 1]);
    if j > i + 1 {
      StoredWhileUnspent(ss, es, i, j - 1);
      RunInv(ss, es, j - 1);
      assert !SpentAt(es, i, j - 1);
      StepSpendsOrKeeps(ss[j - 1], es[j - 1], ss[j], es[i].ticket, es[i].token, es[i].now + TICKET_AGE);
    }
  }

  lemma {:induction false} UnspentWhileStored(ss: seq<State>, es: seq<Event>, i: nat, j: nat)
    requires Issues(ss, es, i, j) && es[i].ticket in ss[j].tickets
    ensures forall k :: i < k < j ==> !SpentAt(es, i, k)
    decreases j
  {
    if j > i + 1 {
      assert Issues(ss, es, i, j - 1);
      StoredBefore(ss, es, i, j);
      UnspentWhileStored(ss, es, i, j - 1);
      StoredWhileUnspent(ss, es, i, j - 1);
      LastUnspent(ss, es, i, j);
    }
  }

  lemma {:induction false} StoredBefore(ss: seq<State>, es: seq<Event>, i: nat, j: nat)
    requires Issues(ss, es, i, j) && i + 1 < j && es[i].ticket in ss[j].tickets
    ensures es[i].ticket in ss[j - 1].tickets
  {
    TicketIsStored(ss[i], es[i], ss[i + 1]);
    TicketStaysKnown(ss, es, i + 1, j - 1, es[i].ticket);
    GoneStaysGone(ss, es, j - 1, j);
  }

  lemma {:induction false} LastUnspent(ss: seq<State>, es: seq<Event>, i: nat, j: nat)
    requires Issues(ss, es, i, j) && i + 1 < j && es[i].ticket in ss[j].tickets
    requires Stored(ss[j - 1], es[i].ticket, es[i].token, es[i].now + TICKET_AGE)
    ensures !SpentAt(es, i, j - 1)
  {
    TicketIsStored(ss[i], es[i], ss[i + 1]);
    RunInv(ss, es, j - 1);
    StepSpendsOrKeeps(ss[j - 1], es[j - 1], ss[j], es[i].ticket, es[i].token, es[i].now + TICKET_AGE);
  }

  lemma {:induction false} TicketStaysKnown(ss: seq<State>, es: seq<Event>, i: nat, j: nat, ticket: string)
    requires IsRun(ss, es) && i <= j <= |es| && ticket in ss[i].ticketed
    ensures ticket in ss[j].ticketed
    decreases j
  {
    if i < j {
      TicketStaysKnown(ss, es, i, j - 1, ticket);
      StepKeepsGone(ss[j - 1], es[j - 1]);
    }
  }

  /** A ticket created for a session that lives until `j` is still stored there exactly if nothing in
      between took it away. */
  lemma TicketIsKept(ss: seq<State>, es: seq<Event>, i: nat, j: nat)
    requires Issues(ss, es, i, j)
    ensures es[i].ticket in ss[j].tickets <==> forall k :: i < k < j ==> !SpentAt(es, i, k)
    ensures es[i].ticket in ss[j].tickets ==> Stored(ss[j], es[i].ticket, es[i].token, es[i].now + TICKET_AGE)
  {
    if es[i].ticket in ss[j].tickets {
      UnspentWhileStored(ss, es, i, j);
    }
    if forall k :: i < k < j ==> !SpentAt(es, i, k) {
      StoredWhileUnspent(ss, es, i, j);
    }
  }

  /** It is then redeemed for its session exactly if nothing took it away, it is not yet thirty seconds
      old and the session is still authorized. */
  lemma TicketIsRedeemed(ss: seq<State>, es: seq<Event>, i: nat, j: nat, now: int)
    requires Issues(ss, es, i, j)
    ensures Redeemed(ss[j], es[i].ticket, now) == es[i].token <==>
              && (forall k :: i < k < j ==> !SpentAt(es, i, k))
              && now < es[i].now + TICKET_AGE
              && Authorized(ss[j], es[i].token, now)
  {
    assert Enabled(ss[i], es[i]);
    TicketIsKept(ss, es, i, j);
  }

  // ---- The maps changed in place ----------------------------------------------

  ghost function IdleAmong(m: map<string, Session>, ts: set<string>, now: int): map<string, Session> {
    m - (m.Keys - ts * IdleTokens(m, now))
  }

  lemma AddChannel(m: map<string, Session>, t: string, e: Session)
    requires t !in m
    ensures DoneChannels(m[t := e]) == DoneChannels(m) + {e.done}
  {
    var m' := m[t := e];
    assert forall u :: u in m ==> m'[u] == m[u];
    assert m'[t] == e;
  }

  lemma VisitOne(m: map<string, Session>, ts: set<string>, t: string, now: int)
    requires t in m && t !in ts
    ensures IdleAmong(m, ts + {t}, now)
            == if Idle(m[t], now) then IdleAmong(m, ts, now)[t := m[t]] else IdleAmong(m, ts, now)
    ensures m - IdleAmong(m, ts + {t}, now).Keys
            == m - IdleAmong(m, ts, now).Keys - if Idle(m[t], now) then {t} else {}
    ensures DoneChannels(IdleAmong(m, ts + {t}, now))
            == DoneChannels(IdleAmong(m, ts, now)) + if Idle(m[t], now) then {m[t].done} else {}
  {
    if Idle(m[t], now) {
      AddChannel(IdleAmong(m, ts, now), t, m[t]);
      assert IdleAmong(m, ts + {t}, now) == IdleAmong(m, ts, now)[t := m[t]];
    } else {
      assert IdleAmong(m, ts + {t}, now) == IdleAmong(m, ts, now);
    }
  }

  class SessionTable {
    var sessions: map<string, Session>
    var tickets: map<string, Ticket>
    var made: set<Channel>
    var closed: set<Channel>
    ghost var issued: map<string, Channel>
    ghost var ticketed: set<string>
    ghost var held: set<(string, Channel)>

    ghost function Value(): State
      reads this
    {
      State(sessions, tickets, made, closed, issued, ticketed, held)
    }

    constructor ()
      ensures Value() == INITIAL
    {
      sessions, tickets, made, closed := map[], map[], {}, {};
      issued, ticketed, held := map[], {}, {};
    }

    /** close(channel), which panics when the channel is closed already. */
    method Close(channel: Channel)
      requires channel !in closed
      modifies this`closed
      ensures closed == old(closed) + {channel}
    {
      closed := closed + {channel};
    }

    method CloseIdle(now: int)
      requires Inv(Value())
      modifies this`sessions, this`closed
      ensures sessions == old(sessions) - IdleTokens(old(sessions), now)
      ensures closed == old(closed) + DoneChannels(IdleSessions(old(Value()), now))
    {
      ghost var before := sessions;
      var rest := sessions.Keys;
      ghost var visited := {};
      while rest != {}
        invariant visited !! rest && visited + rest == before.Keys
        invariant sessions == before - IdleAmong(before, visited, now).Keys
        invariant closed == old(closed) + DoneChannels(IdleAmong(before, visited, now))
      {
        var t :| t in rest;
        VisitOne(before, visited, t, now);
        ChannelsOfSome(old(Value()), IdleAmong(before, visited, now));
        rest, visited := rest - {t}, visited + {t};
        var entry := sessions[t];
        if now - entry.lastSeen > IDLE_MAX_AGE {
          Close(entry.done);
          sessions := sessions - {t};
        }
      }
      assert visited == before.Keys;
      assert IdleAmong(before, before.Keys, now) == IdleSessions(old(Value()), now);
    }

    method DropTickets(now: int)
      modifies this`tickets
      ensures tickets == old(tickets) - ExpiredTickets(old(tickets), now)
    {
      var rest := tickets.Keys;
      while rest != {}
        invariant rest <= tickets.Keys <= old(tickets).Keys
        invariant forall k :: k in tickets ==> tickets[k] == old(tickets)[k]
        invariant forall k :: k in old(tickets) && k in rest ==> k in tickets
        invariant forall k :: k in old(tickets) && k !in rest ==> (k in tickets <==> old(tickets)[k].expiresAt > now)
      {
        var k :| k in rest;
        rest := rest - {k};
        if !(tickets[k].expiresAt > now) {
          tickets := tickets - {k};
        }
      }
    }

    method Prune(now: int)
      requires Inv(Value())
      modifies this`sessions, this`closed, this`tickets
      ensures Value() == Pruned(old(Value()), now)
      ensures Inv(Value())
    {
      PruneKeepsInv(Value(), now);
      if sessions == map[] {
        return;
      }
      CloseIdle(now);
      DropTickets(now);
    }

    method Authorize(token: string, now: int) returns (ok: bool)
      requires Inv(Value())
      modifies this
      ensures Inv(Value())
      ensures Value() == Step(old(Value()), Event.Authorize(token, now))
      ensures ok == Authorized(old(Value()), token, now)
    {
      StepKeepsInv(Value(), Event.Authorize(token, now));
      if token == "" {
        return false;
      }
      Prune(now);
      if token !in sessions {
        return false;
      }
      sessions := sessions[token := sessions[token].(lastSeen := now)];
      return true;
    }

    method Create(token: string, channel: Channel, now: int)
      requires Inv(Value()) && Enabled(Value(), Event.Create(token, channel, now))
      modifies this
      ensures Inv(Value())
      ensures Value() == Step(old(Value()), Event.Create(token, channel, now))
    {
      StepKeepsInv(Value(), Event.Create(token, channel, now));
      Prune(now);
      made := made + {channel};
      sessions := sessions[token := Session(now, channel)];
      issued := issued[token := channel];
    }

    method Revoke(token: string)
      requires Inv(Value())
      modifies this
      ensures Inv(Value())
      ensures Value() == Step(old(Value()), Event.Revoke(token))
    {
      StepKeepsInv(Value(), Event.Revoke(token));
      if token == "" {
        return;
      }
      if token in sessions {
        Close(sessions[token].done);
      }
      sessions := sessions - {token};
      DropTicketsOf(token);
    }

    method DropTicketsOf(token: string)
      modifies this`tickets
      ensures tickets == old(tickets) - TicketsOf(old(tickets), token)
    {
      var rest := tickets.Keys;
      while rest != {}
        invariant rest <= tickets.Keys <= old(tickets).Keys
        invariant forall k :: k in tickets ==> tickets[k] == old(tickets)[k]
        invariant forall k :: k in old(tickets) && k in rest ==> k in tickets
        invariant forall k :: k in old(tickets) && k !in rest ==> (k in tickets <==> old(tickets)[k].session != token)
      {
        var k :| k in rest;
        rest := rest - {k};
        if tickets[k].session == token {
          tickets := tickets - {k};
        }
      }
    }

    method CreateTicket(token: string, ticket: string, now: int) returns (ok: bool)
      requires Inv(Value()) && Enabled(Value(), Event.CreateTicket(token, ticket, now))
      modifies this
      ensures Inv(Value())
      ensures ok == (token != "")
      ensures Value() == Step(old(Value()), Event.CreateTicket(token, ticket, now))
    {
      StepKeepsInv(Value(), Event.CreateTicket(token, ticket, now));
      if token == "" {
        return false;
      }
      Prune(now);
      tickets := tickets[ticket := Ticket(now + TICKET_AGE, token)];
      ticketed := ticketed + {ticket};
      return true;
    }

    method Consume(ticket: string, now: int) returns (session: string)
      requires Inv(Value())
      modifies this
      ensures Inv(Value())
      ensures Value() == Step(old(Value()), Event.Consume(ticket, now))
      ensures session == Redeemed(old(Value()), ticket, now)
    {
      StepKeepsInv(Value(), Event.Consume(ticket, now));
      if ticket == "" {
        return "";
      }
      Prune(now);
      if ticket !in tickets || !(tickets[ticket].expiresAt > now) {
        tickets := tickets - {ticket};
        return "";
      }
      session := tickets[ticket].session;
      tickets := tickets - {ticket};
      if session !in sessions {
        session := "";
      }
    }

    /** pinSessionDone for a request that carries `token`; `channel` is the one made if needed. */
    method Watch(token: string, channel: Channel) returns (done: Option<Channel>)
      requires Inv(Value()) && Enabled(Value(), Event.Watch(token, channel))
      modifies this
      ensures Inv(Value())
      ensures Value() == Step(old(Value()), Event.Watch(token, channel))
      ensures done == if token == "" then None else Some(Watched(old(Value()), token, channel))
    {
      StepKeepsInv(Value(), Event.Watch(token, channel));
      if token == "" {
        return None;
      }
      if token !in sessions {
        made := made + {channel};
        Close(channel);
        held := held + {(token, channel)};
        return Some(channel);
      }
      held := held + {(token, sessions[token].done)};
      return Some(sessions[token].done);
    }
  }
}

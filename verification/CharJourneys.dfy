/** What becomes of a player: what the events of the char-server lead to, one after the other. */
module CharJourneys {
  import opened Wrappers
  import opened CharState
  import opened CharSafety
  import opened CharEffects

  function After(s: State, events: seq<Event>): State {
    if events == [] then s else Step(After(s, events[..|events| - 1]), events[|events| - 1])
  }

  /** Nothing has happened to the account's ticket from the `i`-th note on. */
  predicate Untouched(log: seq<Note>, aid: int, i: nat) {
    forall k | i <= k < |log| :: log[k].aid == aid ==> log[k].Autotraded?
  }

  // ----- the log is only added to -----

  /** The connections and the log that the event leaves: of the log nothing is lost, and a new
      client is let in only by the login-server or a ticket. */
  predicate Follows(s: State, t: State, e: Event) {
    && s.log <= t.log
    && forall fd | fd in t.sessions && t.sessions[fd].auth ::
         || (fd in s.sessions && s.sessions[fd] == t.sessions[fd])
         || IsAcceptance(e, fd, t.sessions[fd])
         || (t.log != [] && IsReconnection(t.log[|t.log| - 1], t.sessions[fd]))
  }

  predicate IsAcceptance(e: Event, fd: int, session: Session) {
    e.LoginAccepts? && e.fd == fd && e.aid == session.account && e.id1 == session.id1 && e.id2 == session.id2
  }

  predicate IsReconnection(note: Note, session: Session) {
    note.Reconnected? && note.aid == session.account && note.id1 == session.id1 && note.id2 == session.id2
  }

  lemma {:induction false} ClaimsKeep(s: State, slot: int, users: seq<(int, int)>)
    ensures ClaimAll(s, slot, users).log == s.log && ClaimAll(s, slot, users).sessions == s.sessions
  {
    if users != [] {
      ClaimsKeep(s, slot, users[..|users| - 1]);
    }
  }

  lemma AuthOkKeeps(s: State, fd: int, busy: bool, tid: int)
    requires fd in s.sessions
    ensures var t := AuthOk(s, fd, busy, tid);
            && t.log == s.log
            && (t.sessions == s.sessions || t.sessions == s.sessions[fd := s.sessions[fd].(auth := true)])
  {
  }

  lemma ConnectFollows(s: State, e: Event)
    requires e.ReqToConnect? || e.LoginAccepts?
    ensures Follows(s, Step(s, e), e)
  {
    if Enabled(s, e) {
      match e
      case ReqToConnect(fd, aid, id1, id2, running, busy, tid) =>
        var t := s.(sessions := s.sessions[fd := Session(aid, id1, id2, false)]);
        if aid in t.tickets {
          AuthOkKeeps(Withdraw(t, aid, Reconnected(aid, t.tickets[aid], id1, id2)), fd, busy, tid);
        }
      case LoginAccepts(fd, _, _, _, busy, tid) =>
        if fd in s.sessions {
          AuthOkKeeps(s, fd, busy, tid);
        }
    }
  }

  lemma OnlineKeeps(s: State, server: int, charId: int, aid: int)
    ensures SetOnline(s, server, charId, aid).log == s.log && SetOnline(s, server, charId, aid).sessions == s.sessions
  {
  }

  lemma SelectionFollows(s: State, fd: int, charId: int, selection: Selection)
    ensures Follows(s, OnCharSelect(s, fd, charId, selection), CharSelect(fd, charId, selection))
  {
    if fd in s.sessions {
      OnlineKeeps(s, -2, charId, s.sessions[fd].account);
    }
  }

  lemma EofFollows(s: State, fd: int)
    ensures Follows(s, OnClientEof(s, fd), ClientEof(fd))
  {
  }

  lemma PlayerFollows(s: State, e: Event)
    requires e.SaveChar? || e.SetCharOnline?
    ensures Follows(s, Step(s, e), e)
  {
    match e
    case SaveChar(slot, aid, charId, _, _) => OnlineKeeps(s, slot, charId, aid);
    case SetCharOnline(slot, charId, aid) => OnlineKeeps(s, slot, charId, aid);
  }

  lemma RequestFollows(s: State, e: Event)
    requires e.ReqAuth?
    ensures Follows(s, Step(s, e), e)
  {
    var slot, aid, charId := e.slot, e.aid, e.charId;
    OnlineKeeps(s.(log := s.log + [Autotraded(aid, slot)]), slot, charId, aid);
    if aid in s.tickets {
      OnlineKeeps(Withdraw(s, aid, Granted(aid, slot, s.tickets[aid], charId, e.id1)), slot, charId, aid);
    }
  }

  lemma LeavingFollows(s: State, e: Event)
    requires e.AskKick? || e.SetCharOffline?
    ensures Follows(s, Step(s, e), e)
  {
  }

  lemma StepFollows(s: State, e: Event)
    ensures Follows(s, Step(s, e), e)
  {
    if e.ReqToConnect? || e.LoginAccepts? {
      ConnectFollows(s, e);
    } else if e.CharSelect? {
      SelectionFollows(s, e.fd, e.charId, e.selection);
    } else if e.ClientEof? {
      EofFollows(s, e.fd);
    } else if e.SaveChar? || e.SetCharOnline? {
      PlayerFollows(s, e);
    } else if e.ReqAuth? {
      RequestFollows(s, e);
    } else if e.AskKick? || e.SetCharOffline? {
      LeavingFollows(s, e);
    } else if e.RegMapUser? && Enabled(s, e) {
      ClaimsKeep(DetachSlot(s, e.slot), e.slot, e.users);
    }
  }

  lemma {:induction false} LogGrows(s: State, events: seq<Event>)
    ensures s.log <= After(s, events).log
  {
    if events != [] {
      LogGrows(s, events[..|events| - 1]);
      StepFollows(After(s, events[..|events| - 1]), events[|events| - 1]);
    }
  }

  lemma {:induction false} AfterSafe(s: State, events: seq<Event>)
    requires Safe(s)
    ensures Safe(After(s, events))
  {
    if events != [] {
      AfterSafe(s, events[..|events| - 1]);
      StepSafe(After(s, events[..|events| - 1]), events[|events| - 1]);
    }
  }

  // ----- tickets let their players in -----

  lemma {:induction false} IssuedIsOpen(log: seq<Note>, aid: int, i: nat)
    requires i < |log| && log[i].Issued? && log[i].aid == aid && Untouched(log, aid, i + 1)
    ensures OpenTicket(log, aid) == Some(log[i].ticket)
    decreases |log|
  {
    if i < |log| - 1 {
      var before := log[..|log| - 1];
      assert forall k | i < k < |before| :: before[k] == log[k];
      IssuedIsOpen(before, aid, i);
    }
  }

  /** A ticket that nothing has happened to since it was issued is the account's ticket. */
  lemma TicketIsThere(s: State, events: seq<Event>, aid: int)
    requires Safe(s) && s.log != [] && s.log[|s.log| - 1].Issued? && s.log[|s.log| - 1].aid == aid
    requires Untouched(After(s, events).log, aid, |s.log|)
    ensures Safe(After(s, events))
    ensures aid in After(s, events).tickets && After(s, events).tickets[aid] == s.log[|s.log| - 1].ticket
  {
    AfterSafe(s, events);
    LogGrows(s, events);
    IssuedIsOpen(After(s, events).log, aid, |s.log| - 1);
  }

  /** The map-server is told that the player may enter, and has the player from now on. */
  predicate Entered(s: State, t: State, slot: int, aid: int, charId: int, id1: int) {
    && |t.log| == |s.log| + 1 && t.log[..|s.log|] == s.log
    && t.log[|s.log|].Granted? && t.log[|s.log|].aid == aid && t.log[|s.log|].slot == slot
    && t.log[|s.log|].charId == charId && t.log[|s.log|].id1 == id1
    && t.table == s.table[aid := Entry(charId, EntryOf(s, aid).fd, -1, slot)]
    && aid !in t.tickets
  }

  lemma TicketLetsIn(s: State, slot: int, aid: int, charId: int, id1: int)
    requires Connected(s, slot) && aid in s.tickets && s.tickets[aid].charId == charId && s.tickets[aid].id1 == id1
    ensures Entered(s, Step(s, ReqAuth(slot, aid, charId, id1, false, true, true)), slot, aid, charId, id1)
  {
  }

  /** Who has selected a character enters the map with it, whatever happens meanwhile that leaves
      the ticket alone. */
  lemma SelectedPlayerEnters(s: State, fd: int, charId: int, meanwhile: seq<Event>, slot: int)
    requires Safe(s) && fd in s.sessions && s.sessions[fd].auth
    requires var t := After(Step(s, CharSelect(fd, charId, Chosen)), meanwhile);
             Connected(t, slot) && Untouched(t.log, s.sessions[fd].account, |s.log| + 1)
    ensures var t := After(Step(s, CharSelect(fd, charId, Chosen)), meanwhile);
            var aid, id1 := s.sessions[fd].account, s.sessions[fd].id1;
            Entered(t, Step(t, ReqAuth(slot, aid, charId, id1, false, true, true)), slot, aid, charId, id1)
  {
    var u, aid := Step(s, CharSelect(fd, charId, Chosen)), s.sessions[fd].account;
    Selected(s, fd, charId, Chosen);
    StepSafe(s, CharSelect(fd, charId, Chosen));
    TicketIsThere(u, meanwhile, aid);
    TicketLetsIn(After(u, meanwhile), slot, aid, charId, s.sessions[fd].id1);
  }

  lemma ChangeIssues(s: State, aid: int, charId: int, id1: int, id2: int, target: int)
    requires Connected(s, target)
    ensures var t := Step(s, ReqChangeMapServ(aid, charId, id1, id2, target, true));
            && t.log == s.log + [Issued(aid, Ticket(|s.log|, charId, id1, id2))]
            && t.table == s.table[aid := EntryOf(s, aid).(charId := charId, server := target)]
  {
  }

  /** Who changes to another map-server enters there. */
  lemma ChangedPlayerEnters(s: State, aid: int, charId: int, id1: int, id2: int, target: int, meanwhile: seq<Event>,
                            slot: int)
    requires Safe(s) && Connected(s, target)
    requires var t := After(Step(s, ReqChangeMapServ(aid, charId, id1, id2, target, true)), meanwhile);
             Connected(t, slot) && Untouched(t.log, aid, |s.log| + 1)
    ensures var t := After(Step(s, ReqChangeMapServ(aid, charId, id1, id2, target, true)), meanwhile);
            Entered(t, Step(t, ReqAuth(slot, aid, charId, id1, false, true, true)), slot, aid, charId, id1)
  {
    var u := Step(s, ReqChangeMapServ(aid, charId, id1, id2, target, true));
    ChangeIssues(s, aid, charId, id1, id2, target);
    StepSafe(s, ReqChangeMapServ(aid, charId, id1, id2, target, true));
    TicketIsThere(u, meanwhile, aid);
    TicketLetsIn(After(u, meanwhile), slot, aid, charId, id1);
  }

  lemma ReturnIssues(s: State, aid: int, id1: int, id2: int)
    ensures var t := Step(s, CharSelectAgain(aid, id1, id2, true));
            && t.log == s.log + [Issued(aid, Ticket(|s.log|, 0, id1, id2))]
            && t.table == s.table[aid := EntryOf(s, aid).(charId := -1, server := -1, timer := -1)]
  {
  }

  /** Who goes back to character selection is let in there. */
  lemma ReturningPlayerIsLetIn(s: State, aid: int, id1: int, id2: int, meanwhile: seq<Event>, fd: int, busy: bool,
                               tid: int)
    requires Safe(s)
    requires var t := After(Step(s, CharSelectAgain(aid, id1, id2, true)), meanwhile);
             Untouched(t.log, aid, |s.log| + 1) && fd !in t.sessions && FreshTimer(t, tid) && Free(t, aid, fd, busy)
    ensures var t := After(Step(s, CharSelectAgain(aid, id1, id2, true)), meanwhile);
            var u := Step(t, ReqToConnect(fd, aid, id1, id2, true, busy, tid));
            LetIn(t, u, fd, Session(aid, id1, id2, false)) && |u.log| > |t.log| && u.log[|t.log|].Reconnected?
  {
    var u := Step(s, CharSelectAgain(aid, id1, id2, true));
    ReturnIssues(s, aid, id1, id2);
    StepSafe(s, CharSelectAgain(aid, id1, id2, true));
    TicketIsThere(u, meanwhile, aid);
    TicketReconnects(After(u, meanwhile), aid, id1, id2, fd, busy, tid);
  }

  /** Without a ticket that fits nobody enters and nothing changes, unless it is an autotrader. */
  lemma NobodyElseEnters(events: seq<Event>, slot: int, aid: int, charId: int, id1: int, running: bool, loaded: bool)
    requires !running || !loaded || forall i: nat | i < |Run(events).log| ::
               Run(events).log[i].Issued? && Run(events).log[i].aid == aid
               && Run(events).log[i].ticket.charId == charId && Run(events).log[i].ticket.id1 == id1
               ==> !Untouched(Run(events).log, aid, i + 1)
    ensures Step(Run(events), ReqAuth(slot, aid, charId, id1, false, running, loaded)) == Run(events)
  {
    var s := Run(events);
    RunIsSafe(events);
    if aid in s.tickets && s.tickets[aid].charId == charId && s.tickets[aid].id1 == id1 {
      OpenIsLatest(s.log, aid);
    }
  }

  /** Who is logged in twice gets in when the time of the other client's map-server is up. */
  lemma SecondLoginGetsIn(s: State, fd: int, busy: bool, tid: int, tid2: int)
    requires Safe(s) && fd in s.sessions && !s.sessions[fd].auth && EntryOf(s, s.sessions[fd].account).server >= 0
    requires FreshTimer(s, tid)
    ensures var session := s.sessions[fd]; var aid := session.account;
            var login := LoginAccepts(fd, aid, session.id1, session.id2, busy, tid);
            var t := Step(s, login);
            && s.kicks + AskedToLetGo(s, aid, -1) <= t.kicks && t.sessions == s.sessions
            && aid in t.table && t.table[aid].timer in t.live
            && var u := Step(t, TimerFires(t.table[aid].timer));
               (busy ==> s.table[aid].fd == fd) && FreshTimer(u, tid2) ==>
                 LetIn(u, Step(u, login.(tid := tid2)), fd, session)
  {
    var session := s.sessions[fd];
    var login := LoginAccepts(fd, session.account, session.id1, session.id2, busy, tid);
    AcceptedLogin(s, fd, session.account, session.id1, session.id2, busy, tid);
    StepSafe(s, login);
    var t := Step(s, login);
    TimeIsUp(t, session.account);
    var u := Step(t, TimerFires(t.table[session.account].timer));
    StepSafe(t, TimerFires(t.table[session.account].timer));
    if FreshTimer(u, tid2) {
      AcceptedLogin(u, fd, session.account, session.id1, session.id2, busy, tid2);
    }
  }

  /** A kicked account's ticket is worth nothing any more. */
  lemma KickedCannotEnter(s: State, aid: int, tid: int, slot: int, charId: int, id1: int, id2: int, fd: int, busy: bool,
                          tid2: int)
    requires Safe(s) && FreshTimer(s, tid)
    ensures var t := Step(s, AskKick(aid, tid));
            && Step(t, ReqAuth(slot, aid, charId, id1, false, true, true)) == t
            && (fd !in t.sessions && FreshTimer(t, tid2) ==>
                  !Step(t, ReqToConnect(fd, aid, id1, id2, true, busy, tid2)).sessions[fd].auth)
  {
    var t := Step(s, AskKick(aid, tid));
    AccountKicked(s, aid, tid);
    if FreshTimer(t, tid2) {
      NewClientWaits(t, fd, aid, id1, id2, true, busy, tid2);
    }
  }

  /** The players of a lost map-server are forgotten unless they have a client here. */
  lemma LostPlayersAreForgotten(s: State, slot: int, aid: int)
    requires Safe(s) && Connected(s, slot)
    ensures var t := Step(Step(s, MapEof(slot)), Cleanup);
            aid in t.table <==> aid in s.table && (s.table[aid].fd != -1 || 0 <= s.table[aid].server != slot)
  {
    ServerLost(s, slot, aid);
    StepSafe(s, MapEof(slot));
    Cleaned(Step(s, MapEof(slot)), aid);
  }

  // ----- nobody gets in without the login-server or a ticket -----

  ghost predicate Earned(events: seq<Event>, log: seq<Note>, fd: int, session: Session) {
    || (exists i | 0 <= i < |events| :: IsAcceptance(events[i], fd, session))
    || (exists k | 0 <= k < |log| :: IsReconnection(log[k], session))
  }

  /** In every run, who is let in to character selection was accepted by the login-server under
      that account and those ids, or used up a ticket for them. */
  lemma {:induction false} ClientsAreEarned(events: seq<Event>, fd: int)
    requires fd in Run(events).sessions && Run(events).sessions[fd].auth
    ensures Earned(events, Run(events).log, fd, Run(events).sessions[fd])
  {
    if events != [] {
      var before, e := events[..|events| - 1], events[|events| - 1];
      var s, t := Run(before), Run(events);
      StepFollows(s, e);
      if fd in s.sessions && s.sessions[fd] == t.sessions[fd] {
        ClientsAreEarned(before, fd);
        EarnedStays(events, s.log, t.log, fd, t.sessions[fd]);
      }
    }
  }

  lemma EarnedStays(events: seq<Event>, log: seq<Note>, more: seq<Note>, fd: int, session: Session)
    requires events != [] && Earned(events[..|events| - 1], log, fd, session) && log <= more
    ensures Earned(events, more, fd, session)
  {
    var before := events[..|events| - 1];
    if i :| 0 <= i < |before| && IsAcceptance(before[i], fd, session) {
      assert events[i] == before[i];
    } else {
      var k :| 0 <= k < |log| && IsReconnection(log[k], session);
      assert more[k] == log[k];
    }
  }
}

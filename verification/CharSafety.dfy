/** What holds in every run of the char-server's cached state. */
module CharSafety {
  import opened Wrappers
  import opened CharState

  // ----- disconnect timers and map-server slots -----

  /** The running timers are exactly those that entries hold, one per account. */
  predicate TimersMatch(s: State) {
    && (forall aid | aid in s.table && s.table[aid].timer != INVALID_TIMER ::
          s.table[aid].timer in s.live && s.live[s.table[aid].timer] == aid)
    && (forall t | t in s.live ::
          t != INVALID_TIMER && s.live[t] in s.table && s.table[s.live[t]].timer == t)
  }

  /** An entry on no map-server holds no timer; one on a map-server names a connected slot. */
  predicate EntryOk(s: State, aid: int)
    requires aid in s.table
  {
    var e := s.table[aid];
    && -2 <= e.server < MAX_MAP_SERVERS
    && (e.server == -1 ==> e.timer == INVALID_TIMER)
    && (e.server >= 0 ==> Connected(s, e.server))
  }

  predicate TableOk(s: State) {
    |s.slots| == MAX_MAP_SERVERS && TimersMatch(s) && forall aid | aid in s.table :: EntryOk(s, aid)
  }

  /** Every request to disconnect a player went to an open connection. */
  predicate KicksOk(s: State) { forall k | k in s.kicks :: k.fd > 0 }

  // ----- tickets -----

  /** The account's ticket as the log has it: issued last and not used or withdrawn since. */
  function OpenTicket(log: seq<Note>, aid: int): Option<Ticket> {
    if log == [] then None
    else
      var last := log[|log| - 1];
      if last.aid != aid || last.Autotraded? then OpenTicket(log[..|log| - 1], aid)
      else if last.Issued? then Some(last.ticket)
      else None
  }

  /** A use of a ticket finds it open, and its ids are those that were presented. */
  predicate NoteOk(log: seq<Note>, i: nat)
    requires i < |log|
  {
    match log[i]
    case Issued(_, ticket) => ticket.serial == i
    case Granted(aid, _, ticket, charId, id1) =>
      OpenTicket(log[..i], aid) == Some(ticket) && ticket.charId == charId && ticket.id1 == id1
    case Reconnected(aid, ticket, id1, id2) =>
      OpenTicket(log[..i], aid) == Some(ticket) && ticket.id1 == id1 && ticket.id2 == id2
    case _ => true
  }

  ghost predicate TicketsOk(s: State) {
    && (forall aid | aid in s.tickets :: OpenTicket(s.log, aid) == Some(s.tickets[aid]))
    && (forall aid | aid !in s.tickets :: OpenTicket(s.log, aid) == None)
    && forall i | 0 <= i < |s.log| :: NoteOk(s.log, i)
  }

  ghost predicate Safe(s: State) { TableOk(s) && KicksOk(s) && TicketsOk(s) }

  // ----- the shared functions keep it -----

  /** Nothing that tickets depend on has changed. */
  predicate SameTickets(s: State, t: State) { s.tickets == t.tickets && s.log == t.log }

  lemma StopTimerSafe(s: State, aid: int)
    requires |s.slots| == MAX_MAP_SERVERS && TimersMatch(s) && KicksOk(s) && aid in s.table
    requires forall b | b in s.table && b != aid :: EntryOk(s, b)
    requires var e := s.table[aid]; -2 <= e.server < MAX_MAP_SERVERS && (e.server >= 0 ==> Connected(s, e.server))
    ensures TableOk(StopTimer(s, aid)) && KicksOk(StopTimer(s, aid)) && SameTickets(s, StopTimer(s, aid))
  {
  }

  lemma EnsureSafe(s: State, aid: int)
    requires TableOk(s) && KicksOk(s)
    ensures TableOk(Ensure(s, aid)) && KicksOk(Ensure(s, aid)) && SameTickets(s, Ensure(s, aid))
  {
  }

  lemma StartTimerSafe(s: State, aid: int, tid: int)
    requires TableOk(s) && KicksOk(s) && OnMapServer(s, aid) && FreshTimer(s, tid)
    ensures var t := StartTimer(s, aid, tid); TableOk(t) && KicksOk(t) && SameTickets(s, t)
  {
  }

  lemma KickSafe(s: State, aid: int)
    requires TableOk(s) && KicksOk(s) && OnMapServer(s, aid)
    ensures TableOk(Kick(s, aid)) && KicksOk(Kick(s, aid)) && SameTickets(s, Kick(s, aid))
  {
    assert EntryOk(s, aid);
    assert forall b | b in s.table :: EntryOk(s, b) ==> EntryOk(Kick(s, aid), b);
  }

  lemma SetCharselectSafe(s: State, aid: int)
    requires TableOk(s) && KicksOk(s)
    ensures var t := SetCharselect(s, aid); TableOk(t) && KicksOk(t) && SameTickets(s, t)
  {
    var t := Ensure(s, aid);
    EnsureSafe(s, aid);
    var u := t.(table := t.table[aid := t.table[aid].(charId := -1, server := -1)]);
    assert forall b | b in u.table && b != aid :: EntryOk(t, b) ==> EntryOk(u, b);
    StopTimerSafe(u, aid);
  }

  lemma SetOnlineSafe(s: State, server: int, charId: int, aid: int)
    requires TableOk(s) && KicksOk(s) && (server == -2 || Connected(s, server))
    ensures var t := SetOnline(s, server, charId, aid); TableOk(t) && KicksOk(t) && SameTickets(s, t)
  {
    var t := Ensure(s, aid);
    EnsureSafe(s, aid);
    var e := t.table[aid];
    var u := if e.charId != -1 && OnMapServer(t, aid) && e.server != server then Kick(t, aid) else t;
    if OnMapServer(t, aid) {
      KickSafe(t, aid);
    }
    var w := u.(table := u.table[aid := e.(charId := charId, server := server)]);
    assert forall b | b in w.table && b != aid :: EntryOk(u, b) ==> EntryOk(w, b);
    StopTimerSafe(w, aid);
  }

  lemma SetOfflineSafe(s: State, charId: int, aid: int)
    requires TableOk(s) && KicksOk(s)
    ensures var t := SetOffline(s, charId, aid); TableOk(t) && KicksOk(t) && SameTickets(s, t)
  {
    if aid in s.table {
      assert EntryOk(s, aid);
      StopTimerSafe(s, aid);
      var t := StopTimer(s, aid);
      var u := SetOffline(s, charId, aid);
      assert forall b | b in u.table && b != aid :: EntryOk(t, b) ==> EntryOk(u, b);
    }
  }

  lemma AuthOkSafe(s: State, fd: int, busy: bool, tid: int)
    requires TableOk(s) && KicksOk(s) && fd in s.sessions && FreshTimer(s, tid)
    ensures var t := AuthOk(s, fd, busy, tid); TableOk(t) && KicksOk(t) && SameTickets(s, t)
  {
    var aid := s.sessions[fd].account;
    if OnMapServer(s, aid) {
      KickSafe(s, aid);
      StartTimerSafe(Kick(s, aid), aid, tid);
    } else if aid in s.table && busy && s.table[aid].fd != fd {
    } else {
      var t := if aid in s.table then s.(table := s.table[aid := s.table[aid].(fd := fd)]) else s;
      var u := t.(sessions := t.sessions[fd := t.sessions[fd].(auth := true)]);
      assert forall b | b in s.table :: EntryOk(s, b) ==> EntryOk(u, b);
      SetCharselectSafe(u, aid);
    }
  }

  lemma DetachSafe(s: State, slot: int)
    requires TableOk(s) && KicksOk(s)
    ensures var t := DetachSlot(s, slot); TableOk(t) && KicksOk(t) && SameTickets(s, t)
    ensures slot >= 0 ==> forall aid | aid in DetachSlot(s, slot).table :: DetachSlot(s, slot).table[aid].server != slot
  {
    var t := DetachSlot(s, slot);
    forall b | b in t.table ensures EntryOk(t, b) {
      assert EntryOk(s, b);
    }
  }

  lemma ClaimSafe(s: State, slot: int, aid: int, charId: int)
    requires TableOk(s) && KicksOk(s) && Connected(s, slot)
    ensures var t := Claim(s, slot, aid, charId);
            TableOk(t) && KicksOk(t) && SameTickets(s, t) && t.slots == s.slots
  {
    var t := Ensure(s, aid);
    EnsureSafe(s, aid);
    if OnMapServer(t, aid) {
      KickSafe(t, aid);
    }
    var u := if OnMapServer(t, aid) && t.table[aid].server != slot then Kick(t, aid) else t;
    var w := Claim(s, slot, aid, charId);
    assert EntryOk(u, aid);
    assert forall b | b in w.table && b != aid :: EntryOk(u, b) ==> EntryOk(w, b);
  }

  lemma {:induction false} ClaimAllSafe(s: State, slot: int, users: seq<(int, int)>)
    requires TableOk(s) && KicksOk(s) && Connected(s, slot)
    ensures var t := ClaimAll(s, slot, users);
            TableOk(t) && KicksOk(t) && SameTickets(s, t) && t.slots == s.slots
  {
    if users != [] {
      var before, last := users[..|users| - 1], users[|users| - 1];
      ClaimAllSafe(s, slot, before);
      ClaimSafe(ClaimAll(s, slot, before), slot, last.0, last.1);
    }
  }

  // ----- the log -----

  lemma NotesBefore(log: seq<Note>, note: Note, i: nat)
    requires i < |log| && NoteOk(log, i)
    ensures NoteOk(log + [note], i)
  {
    assert (log + [note])[..i] == log[..i];
  }

  /** One more note in the log. */
  lemma NotesSnoc(log: seq<Note>, note: Note)
    requires forall i | 0 <= i < |log| :: NoteOk(log, i)
    requires NoteOk(log + [note], |log|)
    ensures forall i | 0 <= i < |log + [note]| :: NoteOk(log + [note], i)
  {
    forall i | 0 <= i < |log + [note]| ensures NoteOk(log + [note], i) {
      if i < |log| {
        NotesBefore(log, note, i);
      }
    }
  }

  lemma OpenAfter(log: seq<Note>, note: Note, aid: int)
    ensures OpenTicket(log + [note], aid) ==
            if note.aid != aid || note.Autotraded? then OpenTicket(log, aid)
            else if note.Issued? then Some(note.ticket) else None
  {
    assert (log + [note])[..|log|] == log;
  }

  lemma IssueSafe(s: State, aid: int, charId: int, id1: int, id2: int)
    requires Safe(s)
    ensures Safe(Issue(s, aid, charId, id1, id2))
  {
    var t := Issue(s, aid, charId, id1, id2);
    var note := t.log[|s.log|];
    assert t.log == s.log + [note];
    NotesSnoc(s.log, note);
    forall b
      ensures if b in t.tickets then OpenTicket(t.log, b) == Some(t.tickets[b]) else OpenTicket(t.log, b) == None
    {
      OpenAfter(s.log, note, b);
    }
    assert forall b | b in s.table :: EntryOk(s, b) ==> EntryOk(t, b);
  }

  /** Using up or withdrawing a ticket. */
  lemma WithdrawSafe(s: State, aid: int, note: Note)
    requires Safe(s) && note.aid == aid && !note.Issued? && !note.Autotraded?
    requires NoteOk(s.log + [note], |s.log|)
    ensures Safe(Withdraw(s, aid, note))
  {
    var t := Withdraw(s, aid, note);
    NotesSnoc(s.log, note);
    forall b
      ensures if b in t.tickets then OpenTicket(t.log, b) == Some(t.tickets[b]) else OpenTicket(t.log, b) == None
    {
      OpenAfter(s.log, note, b);
    }
    assert forall b | b in s.table :: EntryOk(s, b) ==> EntryOk(t, b);
  }

  lemma AutotradeSafe(s: State, note: Note)
    requires Safe(s) && note.Autotraded?
    ensures Safe(s.(log := s.log + [note]))
  {
    var t := s.(log := s.log + [note]);
    NotesSnoc(s.log, note);
    forall b ensures OpenTicket(t.log, b) == OpenTicket(s.log, b) {
      OpenAfter(s.log, note, b);
    }
    assert forall b | b in s.table :: EntryOk(s, b) ==> EntryOk(t, b);
  }

  /** A use of the account's current ticket. */
  lemma UseIsOk(s: State, note: Note)
    requires Safe(s) && (note.Granted? || note.Reconnected?)
    requires note.aid in s.tickets && note.ticket == s.tickets[note.aid]
    requires note.Granted? ==> note.ticket.charId == note.charId && note.ticket.id1 == note.id1
    requires note.Reconnected? ==> note.ticket.id1 == note.id1 && note.ticket.id2 == note.id2
    ensures NoteOk(s.log + [note], |s.log|)
  {
    assert (s.log + [note])[..|s.log|] == s.log;
  }

  lemma SessionsDoNotMatter(s: State, sessions: map<int, Session>)
    requires Safe(s)
    ensures Safe(s.(sessions := sessions))
  {
    var t := s.(sessions := sessions);
    assert forall b | b in s.table :: EntryOk(s, b) ==> EntryOk(t, b);
  }

  // ----- every handler keeps it -----

  lemma ReqToConnectSafe(s: State, fd: int, aid: int, id1: int, id2: int, running: bool, busy: bool, tid: int)
    requires Safe(s) && FreshTimer(s, tid)
    ensures Safe(OnReqToConnect(s, fd, aid, id1, id2, running, busy, tid))
  {
    if fd !in s.sessions {
      var sessions := s.sessions[fd := Session(aid, id1, id2, false)];
      SessionsDoNotMatter(s, sessions);
      var t := s.(sessions := sessions);
      if running && aid in t.tickets && t.tickets[aid].id1 == id1 && t.tickets[aid].id2 == id2 {
        var note := Reconnected(aid, t.tickets[aid], id1, id2);
        UseIsOk(t, note);
        WithdrawSafe(t, aid, note);
        AuthOkSafe(Withdraw(t, aid, note), fd, busy, tid);
      }
    }
  }

  lemma CharSelectSafe(s: State, fd: int, charId: int, selection: Selection)
    requires Safe(s)
    ensures Safe(OnCharSelect(s, fd, charId, selection))
  {
    if fd in s.sessions && s.sessions[fd].auth {
      var session := s.sessions[fd];
      var t := SetOnline(s, -2, charId, session.account);
      SetOnlineSafe(s, -2, charId, session.account);
      SetOfflineSafe(t, charId, session.account);
      IssueSafe(t, session.account, charId, session.id1, session.id2);
    }
  }

  lemma ClientEofSafe(s: State, fd: int)
    requires Safe(s)
    ensures Safe(OnClientEof(s, fd))
  {
    if fd in s.sessions {
      var aid := s.sessions[fd].account;
      SessionsDoNotMatter(s, s.sessions - {fd});
      var t := s.(sessions := s.sessions - {fd});
      if aid in t.table {
        var u := t.(table := t.table[aid := t.table[aid].(fd := -1)]);
        assert EntryOk(t, aid);
        assert forall b | b in t.table :: EntryOk(t, b) ==> EntryOk(u, b);
        SetOfflineSafe(u, -1, aid);
      }
      SetOfflineSafe(t, -1, aid);
    }
  }

  lemma AskKickSafe(s: State, aid: int, tid: int)
    requires Safe(s) && FreshTimer(s, tid)
    ensures Safe(OnAskKick(s, aid, tid))
  {
    if OnMapServer(s, aid) {
      KickSafe(s, aid);
      StartTimerSafe(Kick(s, aid), aid, tid);
      WithdrawSafe(StartTimer(Kick(s, aid), aid, tid), aid, Kicked(aid));
    } else {
      SetOfflineSafe(s, -1, aid);
      WithdrawSafe(SetOffline(s, -1, aid), aid, Kicked(aid));
      WithdrawSafe(s, aid, Kicked(aid));
    }
  }

  lemma {:induction false} FreeSlotIsFree(slots: seq<int>, i: nat)
    requires i <= |slots|
    ensures var k := FreeSlot(slots, i); i <= k <= |slots| && (k < |slots| ==> slots[k] <= 0)
    decreases |slots| - i
  {
    if i < |slots| && slots[i] > 0 {
      FreeSlotIsFree(slots, i + 1);
    }
  }

  lemma MapLoginSafe(s: State, fd: int, accepted: bool)
    requires Safe(s) && fd > 0
    ensures Safe(OnMapLogin(s, fd, accepted))
  {
    FreeSlotIsFree(s.slots, 0);
    var t := OnMapLogin(s, fd, accepted);
    assert forall b | b in s.table :: EntryOk(s, b) ==> EntryOk(t, b);
  }

  lemma MapEofSafe(s: State, slot: int)
    requires Safe(s) && Connected(s, slot)
    ensures Safe(OnMapEof(s, slot))
  {
    DetachSafe(s, slot);
    var t := DetachSlot(s, slot);
    var u := OnMapEof(s, slot);
    forall b | b in u.table ensures EntryOk(u, b) {
      assert EntryOk(t, b) && t.table[b].server != slot;
    }
  }

  lemma SaveCharSafe(s: State, slot: int, aid: int, charId: int, known: bool, final: bool)
    requires Safe(s) && Connected(s, slot)
    ensures Safe(OnSaveChar(s, slot, aid, charId, known, final))
  {
    SetOnlineSafe(s, slot, charId, aid);
    SetOfflineSafe(s, charId, aid);
    SetOfflineSafe(SetOnline(s, slot, charId, aid), charId, aid);
  }

  lemma ReqChangeMapServSafe(s: State, aid: int, charId: int, id1: int, id2: int, target: int, running: bool)
    requires Safe(s) && (target >= 0 ==> Connected(s, target))
    ensures Safe(OnReqChangeMapServ(s, aid, charId, id1, id2, target, running))
  {
    if running && target >= 0 {
      IssueSafe(s, aid, charId, id1, id2);
      var t := Ensure(Issue(s, aid, charId, id1, id2), aid);
      EnsureSafe(Issue(s, aid, charId, id1, id2), aid);
      var u := t.(table := t.table[aid := t.table[aid].(charId := charId, server := target)]);
      assert EntryOk(t, aid);
      assert forall b | b in u.table && b != aid :: EntryOk(t, b) ==> EntryOk(u, b);
    }
  }

  lemma ReqAuthSafe(s: State, slot: int, aid: int, charId: int, id1: int, autotrade: bool, running: bool,
                    loaded: bool)
    requires Safe(s) && Connected(s, slot)
    ensures Safe(OnReqAuth(s, slot, aid, charId, id1, autotrade, running, loaded))
  {
    if !running || !loaded {
    } else if autotrade {
      var t := s.(log := s.log + [Autotraded(aid, slot)]);
      AutotradeSafe(s, Autotraded(aid, slot));
      SetOnlineSafe(t, slot, charId, aid);
    } else if aid in s.tickets && s.tickets[aid].charId == charId && s.tickets[aid].id1 == id1 {
      var note := Granted(aid, slot, s.tickets[aid], charId, id1);
      UseIsOk(s, note);
      WithdrawSafe(s, aid, note);
      SetOnlineSafe(Withdraw(s, aid, note), slot, charId, aid);
    }
  }

  lemma SetAllOfflineSafe(s: State, slot: int)
    requires Safe(s) && Connected(s, slot)
    ensures Safe(OnSetAllOffline(s, slot))
  {
    var t := OnSetAllOffline(s, slot);
    assert forall b | b in s.table :: EntryOk(s, b) ==> EntryOk(t, b);
  }

  lemma OfflineSafe(s: State, done: set<int>)
    requires Safe(s)
    ensures Safe(OfflineSome(s, done))
  {
    var t := OfflineSome(s, done);
    forall b | b in t.table ensures EntryOk(t, b) {
      assert EntryOk(s, b);
    }
    forall k | k in t.kicks ensures k.fd > 0 {
      if k !in s.kicks {
        assert EntryOk(s, k.aid);
      }
    }
  }

  lemma TimerSafe(s: State, tid: int)
    requires Safe(s) && tid in s.live
    ensures Safe(OnTimer(s, tid))
  {
    var aid := s.live[tid];
    var t := s.(live := s.live - {tid}, table := s.table[aid := s.table[aid].(timer := INVALID_TIMER)]);
    forall b | b in t.table ensures EntryOk(t, b) {
      assert EntryOk(s, b);
    }
    SetOfflineSafe(t, s.table[aid].charId, aid);
  }

  /** The cleanup drops no entry whose timer still runs. */
  lemma CleanupSafe(s: State)
    requires Safe(s)
    ensures Safe(OnCleanup(s))
    ensures forall t | t in OnCleanup(s).live :: s.live[t] in OnCleanup(s).table
  {
    var u := OnCleanup(s);
    forall b | b in u.table ensures EntryOk(u, b) {
      assert EntryOk(s, b);
    }
    forall t | t in u.live ensures u.live[t] in u.table {
      assert EntryOk(s, s.live[t]);
    }
  }

  lemma StepSafe(s: State, e: Event)
    requires Safe(s)
    ensures Safe(Step(s, e))
  {
    if Enabled(s, e) {
      match e
      case ReqToConnect(fd, aid, id1, id2, running, busy, tid) =>
        ReqToConnectSafe(s, fd, aid, id1, id2, running, busy, tid);
      case LoginAccepts(fd, aid, id1, id2, busy, tid) =>
        if fd in s.sessions {
          AuthOkSafe(s, fd, busy, tid);
        }
      case CharSelect(fd, charId, selection) => CharSelectSafe(s, fd, charId, selection);
      case ClientEof(fd) => ClientEofSafe(s, fd);
      case AskKick(aid, tid) => AskKickSafe(s, aid, tid);
      case MapLogin(fd, accepted) => MapLoginSafe(s, fd, accepted);
      case MapEof(slot) => MapEofSafe(s, slot);
      case RegMapUser(slot, users) =>
        DetachSafe(s, slot);
        ClaimAllSafe(DetachSlot(s, slot), slot, users);
      case SaveChar(slot, aid, charId, known, final) => SaveCharSafe(s, slot, aid, charId, known, final);
      case CharSelectAgain(aid, id1, id2, running) =>
        IssueSafe(s, aid, 0, id1, id2);
        SetCharselectSafe(Issue(s, aid, 0, id1, id2), aid);
      case ReqChangeMapServ(aid, charId, id1, id2, target, running) =>
        ReqChangeMapServSafe(s, aid, charId, id1, id2, target, running);
      case ReqAuth(slot, aid, charId, id1, autotrade, running, loaded) =>
        ReqAuthSafe(s, slot, aid, charId, id1, autotrade, running, loaded);
      case SetCharOffline(charId, aid) => SetOfflineSafe(s, charId, aid);
      case SetCharOnline(slot, charId, aid) => SetOnlineSafe(s, slot, charId, aid);
      case SetAllOffline(slot) => SetAllOfflineSafe(s, slot);
      case SetEveryoneOffline => OfflineSafe(s, s.table.Keys);
      case TimerFires(tid) => TimerSafe(s, tid);
      case Cleanup => CleanupSafe(s);
    }
  }

  /** Every state of every run is safe. */
  lemma {:induction false} RunIsSafe(events: seq<Event>)
    ensures Safe(Run(events))
  {
    if events != [] {
      RunIsSafe(events[..|events| - 1]);
      StepSafe(Run(events[..|events| - 1]), events[|events| - 1]);
    }
  }

  // ----- what that means -----

  /** A timer runs exactly if an entry holds it. */
  lemma TimersAreHeld(s: State, t: int)
    requires TableOk(s)
    ensures t in s.live <==> t != INVALID_TIMER && exists aid :: aid in s.table && s.table[aid].timer == t
  {
    if t in s.live {
      var aid := s.live[t];
      assert aid in s.table && s.table[aid].timer == t;
    }
  }

  /** In every run the running timers are those that entries hold, and no two entries share
      one; no entry on no map-server holds a timer. */
  lemma TimersInRuns(events: seq<Event>, t: int)
    ensures var s := Run(events);
            t in s.live <==> t != INVALID_TIMER && exists aid :: aid in s.table && s.table[aid].timer == t
    ensures forall a, b | a in Run(events).table && b in Run(events).table ::
              Run(events).table[a].timer == Run(events).table[b].timer != INVALID_TIMER ==> a == b
    ensures forall aid | aid in Run(events).table ::
              Run(events).table[aid].server == -1 ==> Run(events).table[aid].timer == INVALID_TIMER
  {
    RunIsSafe(events);
    TimersAreHeld(Run(events), t);
    assert forall aid | aid in Run(events).table :: EntryOk(Run(events), aid);
  }

  /** In every run each entry that names a map-server slot names a connected one, and every
      request to disconnect a player went to an open connection. */
  lemma SlotsInRuns(events: seq<Event>)
    ensures forall aid | aid in Run(events).table ::
              Run(events).table[aid].server >= 0 ==> Connected(Run(events), Run(events).table[aid].server)
    ensures forall k | k in Run(events).kicks :: k.fd > 0
  {
    RunIsSafe(events);
    assert forall aid | aid in Run(events).table :: EntryOk(Run(events), aid);
  }

  predicate IsUse(n: Note) { n.Granted? || n.Reconnected? }

  /** Nothing happened to the account's ticket between the two places. */
  predicate QuietBetween(log: seq<Note>, aid: int, i: nat, j: nat)
    requires j <= |log|
  {
    forall k | i < k < j :: log[k].aid == aid ==> log[k].Autotraded?
  }

  /** An open ticket is the one issued last, and nothing has happened to it since. */
  lemma {:induction false} OpenIsLatest(log: seq<Note>, aid: int)
    requires OpenTicket(log, aid).Some? && forall i | 0 <= i < |log| :: NoteOk(log, i)
    ensures var ticket := OpenTicket(log, aid).value;
            && ticket.serial < |log| && log[ticket.serial] == Issued(aid, ticket)
            && QuietBetween(log, aid, ticket.serial, |log|)
  {
    var before, last := log[..|log| - 1], log[|log| - 1];
    if last.aid != aid || last.Autotraded? {
      forall i | 0 <= i < |before| ensures NoteOk(before, i) {
        assert NoteOk(log, i) && before[..i] == log[..i];
      }
      OpenIsLatest(before, aid);
    } else {
      assert NoteOk(log, |log| - 1);
    }
  }

  lemma NotesOfPrefix(log: seq<Note>, j: nat)
    requires j <= |log| && forall i | 0 <= i < |log| :: NoteOk(log, i)
    ensures forall i | 0 <= i < j :: NoteOk(log[..j], i)
  {
    forall i | 0 <= i < j ensures NoteOk(log[..j], i) {
      assert NoteOk(log, i) && log[..j][..i] == log[..i];
    }
  }

  /** Every grant to a map-server other than to an autotrader, and every reconnection from one,
      uses up the ticket issued last for the account, which nothing has touched since it was
      issued, and presents that ticket's ids. */
  lemma UsesLatestTicket(events: seq<Event>, j: nat)
    requires j < |Run(events).log| && IsUse(Run(events).log[j])
    ensures var log := Run(events).log; var ticket := log[j].ticket;
            && ticket.serial < j && log[ticket.serial] == Issued(log[j].aid, ticket)
            && QuietBetween(log, log[j].aid, ticket.serial, j)
            && ticket.id1 == log[j].id1
            && (log[j].Granted? ==> ticket.charId == log[j].charId)
            && (log[j].Reconnected? ==> ticket.id2 == log[j].id2)
  {
    RunIsSafe(events);
    var log := Run(events).log;
    assert NoteOk(log, j);
    NotesOfPrefix(log, j);
    OpenIsLatest(log[..j], log[j].aid);
    var k := log[j].ticket.serial;
    forall i | k < i < j ensures log[i].aid == log[j].aid ==> log[i].Autotraded? {
      assert log[..j][i] == log[i];
    }
  }

  /** No ticket is used twice. */
  lemma TicketsAreOneShot(events: seq<Event>, i: nat, j: nat)
    requires i < j < |Run(events).log| && IsUse(Run(events).log[i]) && IsUse(Run(events).log[j])
    ensures Run(events).log[i].ticket != Run(events).log[j].ticket
  {
    UsesLatestTicket(events, i);
    UsesLatestTicket(events, j);
  }

  /** After a kick the account gets nowhere until it is issued a new ticket. */
  lemma NoUseAfterKick(events: seq<Event>, i: nat, j: nat) returns (k: nat)
    requires i < j < |Run(events).log| && Run(events).log[i].Kicked? && IsUse(Run(events).log[j])
    requires Run(events).log[i].aid == Run(events).log[j].aid
    ensures i < k < j && Run(events).log[k] == Issued(Run(events).log[j].aid, Run(events).log[j].ticket)
  {
    UsesLatestTicket(events, j);
    k := Run(events).log[j].ticket.serial;
  }
}

/** What single events of the char-server lead to, told by entries and not by the handlers. */
module CharEffects {
  import opened Wrappers
  import opened CharState
  import opened CharSafety

  /** The account's entry, or the one it would be given. */
  function EntryOf(s: State, aid: int): Entry {
    if aid in s.table then s.table[aid] else Entry(-1, -1, -1, -1)
  }

  /** The map-server that has the player, unless it is the given one, is asked to let go. */
  function AskedToLetGo(s: State, aid: int, but: int): set<KickRequest> {
    var e := EntryOf(s, aid);
    if 0 <= e.server < |s.slots| && e.server != but then {KickRequest(s.slots[e.server], aid, e.charId)} else {}
  }

  // ----- clients -----

  /** No other client holds the account and no map-server has it. */
  predicate Free(s: State, aid: int, fd: int, busy: bool) {
    EntryOf(s, aid).server < 0 && (aid in s.table && busy ==> s.table[aid].fd == fd)
  }

  /** The client is let in to character selection. */
  predicate LetIn(s: State, t: State, fd: int, session: Session) {
    var aid := session.account;
    && t.sessions == s.sessions[fd := session.(auth := true)] && t.kicks == s.kicks
    && t.table == s.table[aid := Entry(-1, if aid in s.table then fd else -1, -1, -1)]
  }

  lemma FreeIsLetIn(s: State, fd: int, busy: bool, tid: int)
    requires fd in s.sessions && Free(s, s.sessions[fd].account, fd, busy)
    ensures LetIn(s, AuthOk(s, fd, busy, tid), fd, s.sessions[fd])
    ensures SameTickets(s, AuthOk(s, fd, busy, tid))
  {
  }

  /** The player's map-server is asked to let go, and given a time to do so once. */
  predicate ToldToGo(s: State, t: State, aid: int, tid: int) {
    && aid in s.table && t.sessions == s.sessions && t.slots == s.slots
    && t.kicks == s.kicks + AskedToLetGo(s, aid, -1)
    && t.table == s.table[aid := s.table[aid].(timer := if s.table[aid].timer == -1 then tid else s.table[aid].timer)]
    && t.live == (if s.table[aid].timer == -1 then s.live[tid := aid] else s.live)
  }

  lemma BusyIsToldToGo(s: State, fd: int, busy: bool, tid: int)
    requires TableOk(s) && fd in s.sessions && EntryOf(s, s.sessions[fd].account).server >= 0
    ensures ToldToGo(s, AuthOk(s, fd, busy, tid), s.sessions[fd].account, tid)
    ensures SameTickets(s, AuthOk(s, fd, busy, tid))
  {
    assert EntryOk(s, s.sessions[fd].account);
  }

  /** What comes of the login-server's positive answer: the client is let in, or the map-server
      that has the player is asked to let go, or another client is in the way.  An answer that
      is not for this client changes nothing. */
  lemma AcceptedLogin(s: State, fd: int, aid: int, id1: int, id2: int, busy: bool, tid: int)
    requires TableOk(s) && FreshTimer(s, tid)
    ensures var t := Step(s, LoginAccepts(fd, aid, id1, id2, busy, tid));
            if fd !in s.sessions || s.sessions[fd] != Session(aid, id1, id2, false) then t == s
            else if Free(s, aid, fd, busy) then LetIn(s, t, fd, s.sessions[fd]) && SameTickets(s, t)
            else if EntryOf(s, aid).server >= 0 then ToldToGo(s, t, aid, tid) && SameTickets(s, t)
            else t == s
  {
    if fd in s.sessions && s.sessions[fd] == Session(aid, id1, id2, false) {
      if Free(s, aid, fd, busy) {
        FreeIsLetIn(s, fd, busy, tid);
      } else if EntryOf(s, aid).server >= 0 {
        BusyIsToldToGo(s, fd, busy, tid);
      }
    }
  }

  /** A new client that has no ticket for character selection waits for the login-server. */
  lemma NewClientWaits(s: State, fd: int, aid: int, id1: int, id2: int, running: bool, busy: bool, tid: int)
    requires FreshTimer(s, tid)
    requires running && aid in s.tickets ==> s.tickets[aid].id1 != id1 || s.tickets[aid].id2 != id2
    ensures Step(s, ReqToConnect(fd, aid, id1, id2, running, busy, tid)) ==
            if fd in s.sessions then s else s.(sessions := s.sessions[fd := Session(aid, id1, id2, false)])
  {
  }

  lemma TicketReconnects(s: State, aid: int, id1: int, id2: int, fd: int, busy: bool, tid: int)
    requires aid in s.tickets && s.tickets[aid].id1 == id1 && s.tickets[aid].id2 == id2
    requires fd !in s.sessions && FreshTimer(s, tid) && Free(s, aid, fd, busy)
    ensures var t := Step(s, ReqToConnect(fd, aid, id1, id2, true, busy, tid));
            && LetIn(s, t, fd, Session(aid, id1, id2, false))
            && t.log == s.log + [Reconnected(aid, s.tickets[aid], id1, id2)] && aid !in t.tickets
  {
    var t := s.(sessions := s.sessions[fd := Session(aid, id1, id2, false)]);
    FreeIsLetIn(Withdraw(t, aid, Reconnected(aid, t.tickets[aid], id1, id2)), fd, busy, tid);
  }

  lemma OnlineEntry(s: State, server: int, charId: int, aid: int)
    ensures SetOnline(s, server, charId, aid).table == s.table[aid := Entry(charId, EntryOf(s, aid).fd, -1, server)]
  {
  }

  lemma OnlineRest(s: State, server: int, charId: int, aid: int)
    ensures SetOnline(s, server, charId, aid).live ==
            s.live - (if EntryOf(s, aid).timer == -1 then {} else {EntryOf(s, aid).timer})
    ensures SetOnline(s, server, charId, aid).kicks ==
            s.kicks + (if EntryOf(s, aid).charId == -1 then {} else AskedToLetGo(s, aid, server))
  {
    var t := Ensure(s, aid);
    assert t.table[aid] == EntryOf(s, aid);
  }

  lemma OfflineEntry(s: State, charId: int, aid: int)
    requires aid in s.table
    ensures SetOffline(s, charId, aid).table ==
            s.table[aid := if s.table[aid].charId == charId then Entry(-1, s.table[aid].fd, -1, -1)
                           else s.table[aid].(timer := -1)]
  {
  }

  /** What selecting a character does to the entry; a ticket is issued for that character and
      the session's ids if all goes well. */
  lemma Selected(s: State, fd: int, charId: int, selection: Selection)
    requires fd in s.sessions && s.sessions[fd].auth
    ensures var session, t := s.sessions[fd], Step(s, CharSelect(fd, charId, selection));
            var aid, e := session.account, EntryOf(s, session.account);
            && t.table == (match selection
                           case NoServers => s.table
                           case Refused => s.table
                           case LoadFails => s.table[aid := Entry(-1, e.fd, -1, -1)]
                           case NoMap => s.table[aid := Entry(charId, e.fd, -1, -2)]
                           case Chosen => s.table[aid := Entry(charId, e.fd, -1, -2)])
            && (selection != Chosen ==> SameTickets(s, t))
            && (selection == Chosen ==>
                  t.log == s.log + [Issued(aid, Ticket(|s.log|, charId, session.id1, session.id2))])
  {
    var aid := s.sessions[fd].account;
    OnlineEntry(s, -2, charId, aid);
    OfflineEntry(SetOnline(s, -2, charId, aid), charId, aid);
  }

  /** Nobody selects a character who has not been let in. */
  lemma OnlyClientsSelect(s: State, fd: int, charId: int, selection: Selection)
    requires fd in s.sessions ==> !s.sessions[fd].auth
    ensures Step(s, CharSelect(fd, charId, selection)) == s
  {
  }

  /** A client that leaves takes nothing along but its connection. */
  lemma ClientLeaves(s: State, fd: int)
    requires TableOk(s) && fd in s.sessions
    ensures var aid := s.sessions[fd].account;
            Step(s, ClientEof(fd)) ==
            s.(sessions := s.sessions - {fd},
               table := if s.sessions[fd].auth && aid in s.table && s.table[aid].fd == fd
                        then s.table[aid := s.table[aid].(fd := -1)] else s.table)
  {
    var aid := s.sessions[fd].account;
    if aid in s.table {
      assert EntryOk(s, aid);
      var e := s.table[aid];
      assert e.server == -1 ==> e.timer == -1;
    }
  }

  // ----- entries -----

  /** A map-server that has a player now is named in the entry, and another one is asked to let go. */
  lemma PlayerOnline(s: State, slot: int, charId: int, aid: int)
    requires Connected(s, slot)
    ensures var t := Step(s, SetCharOnline(slot, charId, aid)); var e := EntryOf(s, aid);
            && t.table == s.table[aid := Entry(charId, e.fd, -1, slot)]
            && t.live == s.live - (if e.timer == -1 then {} else {e.timer})
            && t.kicks == s.kicks + (if e.charId == -1 then {} else AskedToLetGo(s, aid, slot))
  {
    OnlineEntry(s, slot, charId, aid);
    OnlineRest(s, slot, charId, aid);
  }

  /** A player is offline if it is the character that was online. */
  lemma PlayerOffline(s: State, charId: int, aid: int)
    requires aid in s.table
    ensures var t := Step(s, SetCharOffline(charId, aid)); var e := s.table[aid];
            && t.table == s.table[aid := if e.charId == charId then Entry(-1, e.fd, -1, -1) else e.(timer := -1)]
            && t.live == s.live - (if e.timer == -1 then {} else {e.timer})
  {
    OfflineEntry(s, charId, aid);
  }

  /** A save of a character that is not known to be online puts it there; the last one takes it off. */
  lemma Saved(s: State, slot: int, aid: int, charId: int, known: bool, final: bool)
    requires Connected(s, slot)
    ensures Step(s, SaveChar(slot, aid, charId, known, final)) ==
            if final then Step(s, SetCharOffline(charId, aid))
            else if known || (aid in s.table && s.table[aid].charId == charId) then s
            else Step(s, SetCharOnline(slot, charId, aid))
  {
  }

  /** An autotrader is on the map-server without a ticket. */
  lemma AutotraderOnline(s: State, slot: int, aid: int, charId: int, id1: int)
    requires Connected(s, slot)
    ensures var t := Step(s, ReqAuth(slot, aid, charId, id1, true, true, true));
            && t.log == s.log + [Autotraded(aid, slot)] && t.tickets == s.tickets
            && t.table == s.table[aid := Entry(charId, EntryOf(s, aid).fd, -1, slot)]
  {
    OnlineEntry(s.(log := s.log + [Autotraded(aid, slot)]), slot, charId, aid);
  }

  /** When its timer fires an entry is that of a player who is nowhere. */
  lemma TimeIsUp(s: State, aid: int)
    requires TableOk(s) && aid in s.table && s.table[aid].timer != -1
    ensures Step(s, TimerFires(s.table[aid].timer)) ==
            s.(table := s.table[aid := Entry(-1, s.table[aid].fd, -1, -1)], live := s.live - {s.table[aid].timer})
  {
  }

  /** The account is without a ticket after a kick, and with it goes the player: who is on a
      map-server is told to go, who is nowhere and has no client is offline. */
  lemma AccountKicked(s: State, aid: int, tid: int)
    requires TableOk(s) && FreshTimer(s, tid)
    ensures var t := Step(s, AskKick(aid, tid));
            && t.log == s.log + [Kicked(aid)] && t.tickets == s.tickets - {aid}
            && if EntryOf(s, aid).server >= 0 then ToldToGo(s, t, aid, tid)
               else if aid in s.table && forall fd | fd in s.sessions :: s.sessions[fd].account != aid then
                 t.table == Step(s, SetCharOffline(-1, aid)).table
               else t.table == s.table && t.live == s.live && t.kicks == s.kicks
  {
    if aid in s.table {
      assert EntryOk(s, aid);
    }
  }

  // ----- map-servers -----

  /** A map-server that is accepted gets the first slot that is free, if there is one. */
  lemma FirstFreeSlot(s: State, fd: int, i: nat)
    requires i < |s.slots| && s.slots[i] <= 0 && (forall j | 0 <= j < i :: s.slots[j] > 0) && fd > 0 && fd !in s.slots
    ensures Step(s, MapLogin(fd, true)) == s.(slots := s.slots[i := fd]) && Step(s, MapLogin(fd, false)) == s
  {
    FirstIs(s.slots, 0, i);
  }

  lemma {:induction false} FirstIs(slots: seq<int>, k: nat, i: nat)
    requires k <= i < |slots| && slots[i] <= 0 && forall j | k <= j < i :: slots[j] > 0
    ensures FreeSlot(slots, k) == i
    decreases i - k
  {
    if k < i {
      FirstIs(slots, k + 1, i);
    }
  }

  lemma NoFreeSlot(s: State, fd: int)
    requires forall j | 0 <= j < |s.slots| :: s.slots[j] > 0
    ensures Step(s, MapLogin(fd, true)) == s
  {
    FreeSlotIsFree(s.slots, 0);
  }

  /** The players of a map-server that is gone are on an unknown one, and all others where they were. */
  lemma ServerLost(s: State, slot: int, aid: int)
    requires Connected(s, slot)
    ensures var t := Step(s, MapEof(slot));
            && t.slots == s.slots[slot := -1] && t.live == s.live && t.sessions == s.sessions && SameTickets(s, t)
            && t.table.Keys == s.table.Keys
            && (aid in s.table ==>
                  t.table[aid] == if s.table[aid].server == slot then s.table[aid].(server := -2) else s.table[aid])
  {
  }

  /** The cleanup forgets exactly the players who are neither here nor on a map-server. */
  lemma Cleaned(s: State, aid: int)
    requires TableOk(s)
    ensures var t := Step(s, Cleanup);
            && t == s.(table := t.table, live := t.live)
            && (aid in t.table <==> aid in s.table && (s.table[aid].fd != -1 || s.table[aid].server >= 0))
            && (aid in t.table ==> t.table[aid] == s.table[aid])
            && (forall i | i in t.live :: i in s.live && t.live[i] == s.live[i])
            && (aid in s.table && s.table[aid].timer != -1 ==> (s.table[aid].timer in t.live <==> aid in t.table))
  {
    if aid in s.table {
      assert EntryOk(s, aid);
    }
  }

  /** Each player of the map-server is to be disconnected. */
  lemma ServerEmptied(s: State, slot: int, k: KickRequest)
    requires Connected(s, slot)
    ensures var t := Step(s, SetAllOffline(slot));
            && t == s.(kicks := t.kicks)
            && (k in t.kicks <==> k in s.kicks || (k.fd == s.slots[slot] && k.aid in s.table
                                     && s.table[k.aid].server == slot && s.table[k.aid].charId == k.charId))
  {
  }

  /** Everybody is to be disconnected, and offline unless that is still to come. */
  lemma EverybodyOffline(s: State, aid: int)
    requires TableOk(s) && aid in s.table
    ensures var t := Step(s, SetEveryoneOffline); var e := s.table[aid];
            && t.live == s.live && t.table.Keys == s.table.Keys && s.kicks + AskedToLetGo(s, aid, -1) <= t.kicks
            && t.table[aid] == if e.server < 0 && e.timer == -1 then Entry(-1, e.fd, -1, -1) else e
  {
    assert EntryOk(s, aid);
  }

  lemma OnlyPlayersDisconnected(s: State, k: KickRequest)
    requires k in Step(s, SetEveryoneOffline).kicks && k !in s.kicks
    ensures k in AskedToLetGo(s, k.aid, -1)
  {
  }

  // ----- the players a map-server reports -----

  /** The last character reported for the account. */
  function Reported(users: seq<(int, int)>, aid: int): Option<int> {
    if users == [] then None
    else if users[|users| - 1].0 == aid then Some(users[|users| - 1].1)
    else Reported(users[..|users| - 1], aid)
  }

  /** The entry after the map-server has said whom it has. */
  predicate EntryReported(s: State, t: State, slot: int, users: seq<(int, int)>, aid: int) {
    var e := EntryOf(s, aid);
    if Reported(users, aid).Some? then
      aid in t.table && t.table[aid] == e.(charId := Reported(users, aid).value, server := slot)
    else
      && (aid in t.table <==> aid in s.table)
      && (aid in s.table ==> t.table[aid] == if e.server == slot then e.(server := -2) else e)
  }

  predicate KicksReported(s: State, t: State, slot: int, users: seq<(int, int)>) {
    && s.kicks <= t.kicks
    && (forall k | k in t.kicks :: k in s.kicks || (Reported(users, k.aid).Some? && k in AskedToLetGo(s, k.aid, slot)))
    && (forall u | u in users :: AskedToLetGo(s, u.0, slot) <= t.kicks)
  }

  lemma ClaimIs(s: State, slot: int, aid: int, charId: int, b: int)
    requires Connected(s, slot)
    ensures var t := Claim(s, slot, aid, charId);
            && t == s.(table := s.table[aid := EntryOf(s, aid).(charId := charId, server := slot)],
                       kicks := s.kicks + AskedToLetGo(s, aid, slot))
            && EntryOf(t, b) == if b == aid then EntryOf(s, aid).(charId := charId, server := slot) else EntryOf(s, b)
  {
  }

  lemma {:induction false} UsersReported(s: State, slot: int, users: seq<(int, int)>, aid: int)
    requires Connected(s, slot)
    ensures var t := ClaimAll(DetachSlot(s, slot), slot, users);
            t == s.(table := t.table, kicks := t.kicks) && EntryReported(s, t, slot, users, aid)
  {
    if users != [] {
      var before, last := users[..|users| - 1], users[|users| - 1];
      UsersReported(s, slot, before, aid);
      UsersReported(s, slot, before, last.0);
      ClaimIs(ClaimAll(DetachSlot(s, slot), slot, before), slot, last.0, last.1, aid);
    }
  }

  lemma {:induction false} ReportedIsUser(users: seq<(int, int)>, aid: int)
    requires Reported(users, aid).Some?
    ensures (aid, Reported(users, aid).value) in users
  {
    if users[|users| - 1].0 != aid {
      ReportedIsUser(users[..|users| - 1], aid);
    }
  }

  lemma {:induction false} UsersKicked(s: State, slot: int, users: seq<(int, int)>)
    requires Connected(s, slot)
    ensures KicksReported(s, ClaimAll(DetachSlot(s, slot), slot, users), slot, users)
  {
    if users != [] {
      var before, last := users[..|users| - 1], users[|users| - 1];
      UsersKicked(s, slot, before);
      UsersReported(s, slot, before, last.0);
      ClaimIs(ClaimAll(DetachSlot(s, slot), slot, before), slot, last.0, last.1, last.0);
      if Reported(before, last.0).Some? {
        ReportedIsUser(before, last.0);
      }
      assert AskedToLetGo(s, last.0, slot) <= ClaimAll(DetachSlot(s, slot), slot, users).kicks;
      assert users == before + [last];
    }
  }

  /** A map-server has exactly the players that it reports, with the characters reported last,
      and a map-server that had one of them is asked to let go. */
  lemma PlayersReported(s: State, slot: int, users: seq<(int, int)>, aid: int)
    requires Connected(s, slot)
    ensures var t := Step(s, RegMapUser(slot, users));
            t == s.(table := t.table, kicks := t.kicks)
            && EntryReported(s, t, slot, users, aid) && KicksReported(s, t, slot, users)
  {
    UsersReported(s, slot, users, aid);
    UsersKicked(s, slot, users);
  }
}

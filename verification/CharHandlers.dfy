/** The char-server's handlers as they run: they change the tables in place. */
module CharHandlers {
  import opened Wrappers
  import opened CharState
  import opened CharSafety

  lemma NonEmpty(s: set<int>)
    requires s != {}
    ensures exists x :: x in s
  {
    assert (forall x :: x !in s) ==> s == {};
  }

  class CharServer {
    var table: map<int, Entry>
    var live: map<int, int>
    var slots: array<int>
    var sessions: map<int, Session>
    var tickets: map<int, Ticket>
    var log: seq<Note>          // the record of what happened to tickets
    ghost var kicks: set<KickRequest>

    ghost function View(): State
      reads this, slots
    {
      State(table, live, slots[..], sessions, tickets, log, kicks)
    }

    constructor ()
      ensures View() == Initial && Safe(View()) && fresh(slots)
    {
      table := map[];
      live := map[];
      slots := new int[MAX_MAP_SERVERS](_ => -1);
      sessions := map[];
      tickets := map[];
      log := [];
      kicks := {};
      new;
      assert slots[..] == [-1, -1];
    }

    method EnsureEntry(aid: int)
      modifies `table
      ensures View() == Ensure(old(View()), aid)
    {
      if aid !in table {
        table := table[aid := NewEntry];
      }
    }

    /** `delete_timer`, if one runs. */
    method DropTimer(aid: int)
      requires aid in table
      modifies `table, `live
      ensures View() == StopTimer(old(View()), aid)
    {
      var e := table[aid];
      if e.timer != INVALID_TIMER {
        live := live - {e.timer};
        table := table[aid := e.(timer := INVALID_TIMER)];
      }
    }

    /** `mapif_disconnectplayer`. */
    method DisconnectPlayer(aid: int)
      requires OnMapServer(View(), aid)
      modifies `kicks
      ensures View() == Kick(old(View()), aid)
    {
      ghost var e := table[aid];
      kicks := kicks + {KickRequest(slots[e.server], aid, e.charId)};
    }

    method AddTimer(aid: int, tid: int)
      requires aid in table
      modifies `table, `live
      ensures View() == StartTimer(old(View()), aid, tid)
    {
      var e := table[aid];
      if e.timer == INVALID_TIMER {
        table := table[aid := e.(timer := tid)];
        live := live[tid := aid];
      }
    }

    /** `char_set_charselect`. */
    method SetToCharselect(aid: int)
      modifies `table, `live
      ensures View() == SetCharselect(old(View()), aid)
    {
      EnsureEntry(aid);
      table := table[aid := table[aid].(charId := -1, server := -1)];
      DropTimer(aid);
    }

    /** `char_set_char_online`. */
    method SetCharOnline(server: int, charId: int, aid: int)
      modifies `table, `live, `kicks
      ensures View() == SetOnline(old(View()), server, charId, aid)
    {
      EnsureEntry(aid);
      var e := table[aid];
      if e.charId != -1 && 0 <= e.server < slots.Length && e.server != server {
        DisconnectPlayer(aid);
      }
      table := table[aid := e.(charId := charId, server := server)];
      DropTimer(aid);
    }

    /** `char_set_char_offline`. */
    method SetCharOffline(charId: int, aid: int)
      modifies `table, `live
      ensures View() == SetOffline(old(View()), charId, aid)
    {
      if aid in table {
        DropTimer(aid);
        if table[aid].charId == charId {
          table := table[aid := table[aid].(charId := -1, server := -1)];
        }
      }
    }

    /** `char_auth_ok`. */
    method AuthenticateClient(fd: int, busy: bool, tid: int)
      requires fd in sessions
      modifies `table, `live, `sessions, `kicks
      ensures View() == AuthOk(old(View()), fd, busy, tid)
    {
      var aid := sessions[fd].account;
      if aid in table {
        if 0 <= table[aid].server < slots.Length {
          DisconnectPlayer(aid);
          AddTimer(aid, tid);
          return;
        }
        if busy && table[aid].fd != fd {
          return;
        }
        table := table[aid := table[aid].(fd := fd)];
      }
      sessions := sessions[fd := sessions[fd].(auth := true)];
      SetToCharselect(aid);
    }

    /** `char_db_setoffline` on every entry. */
    method DetachPlayers(slot: int)
      modifies `table
      ensures View() == DetachSlot(old(View()), slot)
    {
      var todo := table.Keys;
      while todo != {}
        invariant todo <= table.Keys == old(table).Keys
        invariant forall aid | aid in todo :: table[aid] == old(table)[aid]
        invariant forall aid | aid in table && aid !in todo ::
                    table[aid] == DetachSlot(old(View()), slot).table[aid]
        decreases |todo|
      {
        NonEmpty(todo);
        var aid :| aid in todo;
        if table[aid].server == slot {
          table := table[aid := table[aid].(server := -2)];
        }
        todo := todo - {aid};
      }
      ghost var detached := DetachSlot(old(View()), slot).table;
      assert table.Keys == detached.Keys;
      forall aid | aid in table ensures table[aid] == detached[aid] {
        assert aid !in todo;
      }
      assert table == detached;
    }

    /** `chmapif_parse_regmapuser`. */
    method RegisterUsers(slot: int, users: seq<(int, int)>)
      requires Safe(View()) && Connected(View(), slot)
      modifies `table, `kicks
      ensures View() == Step(old(View()), RegMapUser(slot, users)) && Safe(View())
    {
      ghost var was := View();
      DetachPlayers(slot);
      DetachSafe(was, slot);
      ghost var detached := View();
      for i := 0 to |users|
        invariant View() == ClaimAll(detached, slot, users[..i])
      {
        ClaimUser(slot, users[i].0, users[i].1);
        assert users[..i + 1][..i] == users[..i];
      }
      assert users[..|users|] == users;
      ClaimAllSafe(detached, slot, users);
      assert View().tickets == was.tickets && View().log == was.log;
    }

    /** One player that a map-server reports. */
    method ClaimUser(slot: int, aid: int, charId: int)
      modifies `table, `kicks
      ensures View() == Claim(old(View()), slot, aid, charId)
    {
      EnsureEntry(aid);
      if 0 <= table[aid].server < slots.Length && table[aid].server != slot {
        DisconnectPlayer(aid);
      }
      table := table[aid := table[aid].(server := slot, charId := charId)];
    }

    /** `chclif_parse_reqtoconnect`. */
    method RequestConnect(fd: int, aid: int, id1: int, id2: int, running: bool, busy: bool, tid: int)
      requires Safe(View()) && FreshTimer(View(), tid)
      modifies `table, `live, `sessions, `tickets, `log, `kicks
      ensures View() == Step(old(View()), ReqToConnect(fd, aid, id1, id2, running, busy, tid))
      ensures Safe(View())
    {
      StepSafe(View(), ReqToConnect(fd, aid, id1, id2, running, busy, tid));
      if fd in sessions {
        return;
      }
      sessions := sessions[fd := Session(aid, id1, id2, false)];
      if !running {
        return;
      }
      if aid in tickets && tickets[aid].id1 == id1 && tickets[aid].id2 == id2 {
        log := log + [Reconnected(aid, tickets[aid], id1, id2)];
        tickets := tickets - {aid};
        AuthenticateClient(fd, busy, tid);
      }
    }

    /** `chclif_parse_charselect`. */
    method SelectChar(fd: int, charId: int, selection: Selection)
      requires Safe(View())
      modifies `table, `live, `tickets, `log, `kicks
      ensures View() == Step(old(View()), CharSelect(fd, charId, selection)) && Safe(View())
    {
      StepSafe(View(), CharSelect(fd, charId, selection));
      if fd !in sessions || !sessions[fd].auth || selection.NoServers? || selection.Refused? {
        return;
      }
      var session := sessions[fd];
      SetCharOnline(-2, charId, session.account);
      if selection.LoadFails? {
        SetCharOffline(charId, session.account);
      } else if selection.Chosen? {
        PutTicket(session.account, charId, session.id1, session.id2);
      }
    }

    /** `idb_put` on the auth table. */
    method PutTicket(aid: int, charId: int, id1: int, id2: int)
      modifies `tickets, `log
      ensures View() == Issue(old(View()), aid, charId, id1, id2)
    {
      var ticket := Ticket(|log|, charId, id1, id2);
      tickets := tickets[aid := ticket];
      log := log + [Issued(aid, ticket)];
    }

    /** `chlogif_parse_ackaccreq`. */
    method AcceptLogin(fd: int, aid: int, id1: int, id2: int, busy: bool, tid: int)
      requires Safe(View()) && FreshTimer(View(), tid)
      modifies `table, `live, `sessions, `kicks
      ensures View() == Step(old(View()), LoginAccepts(fd, aid, id1, id2, busy, tid)) && Safe(View())
    {
      StepSafe(View(), LoginAccepts(fd, aid, id1, id2, busy, tid));
      if fd in sessions && !sessions[fd].auth && sessions[fd].account == aid
         && sessions[fd].id1 == id1 && sessions[fd].id2 == id2
      {
        AuthenticateClient(fd, busy, tid);
      }
    }

    /** The end of a client's connection. */
    method ClientClosed(fd: int)
      requires Safe(View())
      modifies `table, `live, `sessions
      ensures View() == Step(old(View()), ClientEof(fd)) && Safe(View())
    {
      StepSafe(View(), ClientEof(fd));
      if fd !in sessions {
        return;
      }
      var session := sessions[fd];
      sessions := sessions - {fd};
      if session.auth {
        var aid := session.account;
        if aid in table && table[aid].fd == fd {
          table := table[aid := table[aid].(fd := -1)];
        }
        if aid !in table || table[aid].server == -1 {
          SetCharOffline(-1, aid);
        }
      }
    }

    /** ARR_FIND over the sessions. */
    method HasSession(aid: int) returns (found: bool)
      ensures found <==> exists fd | fd in sessions :: sessions[fd].account == aid
    {
      var todo := sessions.Keys;
      while todo != {}
        invariant todo <= sessions.Keys
        invariant forall fd | fd in sessions && fd !in todo :: sessions[fd].account != aid
        decreases |todo|
      {
        NonEmpty(todo);
        var fd :| fd in todo;
        if sessions[fd].account == aid {
          return true;
        }
        todo := todo - {fd};
      }
      return false;
    }

    /** `chlogif_parse_askkick`. */
    method KickAccount(aid: int, tid: int)
      requires Safe(View()) && FreshTimer(View(), tid)
      modifies `table, `live, `tickets, `log, `kicks
      ensures View() == Step(old(View()), AskKick(aid, tid)) && Safe(View())
    {
      StepSafe(View(), AskKick(aid, tid));
      if aid in table {
        if 0 <= table[aid].server < slots.Length {
          DisconnectPlayer(aid);
          AddTimer(aid, tid);
        } else {
          var found := HasSession(aid);
          if !found {
            SetCharOffline(-1, aid);
          }
        }
      }
      tickets := tickets - {aid};
      log := log + [Kicked(aid)];
    }

    /** `chclif_parse_maplogin`. */
    method MapServerLogin(fd: int, accepted: bool)
      requires Safe(View()) && fd > 0 && fd !in slots[..]
      modifies slots
      ensures View() == Step(old(View()), MapLogin(fd, accepted)) && Safe(View())
    {
      StepSafe(View(), MapLogin(fd, accepted));
      var i := 0;
      while i < slots.Length && slots[i] > 0
        invariant 0 <= i <= slots.Length && FreeSlot(slots[..], i) == FreeSlot(slots[..], 0)
      {
        i := i + 1;
      }
      if accepted && i < slots.Length {
        ghost var was := slots[..];
        slots[i] := fd;
        assert slots[..] == was[i := fd];
      }
    }

    /** The end of a map-server's connection. */
    method MapServerClosed(slot: int)
      requires Safe(View()) && Connected(View(), slot)
      modifies `table, slots
      ensures View() == Step(old(View()), MapEof(slot)) && Safe(View())
    {
      StepSafe(View(), MapEof(slot));
      DetachPlayers(slot);
      ghost var was := slots[..];
      slots[slot] := -1;
      assert slots[..] == was[slot := -1];
    }

    /** `chmapif_parse_reqsavechar`. */
    method SaveCharacter(slot: int, aid: int, charId: int, known: bool, final: bool)
      requires Safe(View()) && Connected(View(), slot)
      modifies `table, `live, `kicks
      ensures View() == Step(old(View()), SaveChar(slot, aid, charId, known, final)) && Safe(View())
    {
      StepSafe(View(), SaveChar(slot, aid, charId, known, final));
      if !(known || final || (aid in table && table[aid].charId == charId)) {
        SetCharOnline(slot, charId, aid);
      }
      if final {
        SetCharOffline(charId, aid);
      }
    }

    /** `chmapif_parse_authok`. */
    method BackToCharSelect(aid: int, id1: int, id2: int, running: bool)
      requires Safe(View())
      modifies `table, `live, `tickets, `log
      ensures View() == Step(old(View()), CharSelectAgain(aid, id1, id2, running)) && Safe(View())
    {
      StepSafe(View(), CharSelectAgain(aid, id1, id2, running));
      if running {
        PutTicket(aid, 0, id1, id2);
        SetToCharselect(aid);
      }
    }

    /** `chmapif_parse_reqchangemapserv`. */
    method ChangeMapServer(aid: int, charId: int, id1: int, id2: int, target: int, running: bool)
      requires Safe(View()) && (target >= 0 ==> Connected(View(), target))
      modifies `table, `tickets, `log
      ensures View() == Step(old(View()), ReqChangeMapServ(aid, charId, id1, id2, target, running))
      ensures Safe(View())
    {
      StepSafe(View(), ReqChangeMapServ(aid, charId, id1, id2, target, running));
      if running && target >= 0 {
        PutTicket(aid, charId, id1, id2);
        EnsureEntry(aid);
        table := table[aid := table[aid].(charId := charId, server := target)];
      }
    }

    /** `chmapif_parse_reqauth`: the reply that lets a player in, or refuses. */
    method RequestAuth(slot: int, aid: int, charId: int, id1: int, autotrade: bool, running: bool, loaded: bool)
      returns (granted: bool)
      requires Safe(View()) && Connected(View(), slot)
      modifies `table, `live, `tickets, `log, `kicks
      ensures View() == Step(old(View()), ReqAuth(slot, aid, charId, id1, autotrade, running, loaded))
      ensures Safe(View())
      ensures granted <==>
                running && loaded
                && (autotrade
                    || (aid in old(tickets) && old(tickets)[aid].charId == charId && old(tickets)[aid].id1 == id1))
    {
      StepSafe(View(), ReqAuth(slot, aid, charId, id1, autotrade, running, loaded));
      if running && autotrade && loaded {
        log := log + [Autotraded(aid, slot)];
        SetCharOnline(slot, charId, aid);
        return true;
      }
      if running && loaded && aid in tickets && tickets[aid].charId == charId && tickets[aid].id1 == id1 {
        log := log + [Granted(aid, slot, tickets[aid], charId, id1)];
        tickets := tickets - {aid};
        SetCharOnline(slot, charId, aid);
        return true;
      }
      return false;
    }

    /** `char_db_kickoffline` on every entry, for one map-server. */
    method KickOthers(slot: int)
      requires Safe(View()) && Connected(View(), slot)
      modifies `kicks
      ensures View() == OnSetAllOffline(old(View()), slot)
    {
      var todo := table.Keys;
      while todo != {}
        invariant todo <= table.Keys
        invariant kicks == old(kicks) + set aid | aid in table && aid !in todo && table[aid].server == slot ::
                                          KickRequest(slots[slot], aid, table[aid].charId)
        decreases |todo|
      {
        NonEmpty(todo);
        var aid :| aid in todo;
        if table[aid].server == slot {
          DisconnectPlayer(aid);
        }
        todo := todo - {aid};
      }
    }

    /** `char_set_all_offline` for one map-server. */
    method KickAllFrom(slot: int)
      requires Safe(View()) && Connected(View(), slot)
      modifies `kicks
      ensures View() == Step(old(View()), SetAllOffline(slot)) && Safe(View())
    {
      StepSafe(View(), SetAllOffline(slot));
      KickOthers(slot);
    }

    /** `char_db_kickoffline` on every entry, for everybody. */
    method KickOrSetAllOffline()
      requires Safe(View())
      modifies `table, `live, `kicks
      ensures View() == OfflineSome(old(View()), old(table).Keys)
    {
      OfflineNone(View());
      ghost var was := View();
      var keys, todo := table.Keys, table.Keys;
      assert keys - todo == {};
      while todo != {}
        invariant todo <= keys && View() == OfflineSome(was, keys - todo)
        decreases |todo|
      {
        NonEmpty(todo);
        var aid :| aid in todo;
        OfflineOne(was, keys - todo, aid);
        assert keys - (todo - {aid}) == keys - todo + {aid};
        KickOrSetOffline(aid);
        todo := todo - {aid};
      }
      assert keys - todo == keys;
    }

    /** `char_set_all_offline` for everybody. */
    method SetAllPlayersOffline()
      requires Safe(View())
      modifies `table, `live, `kicks
      ensures View() == Step(old(View()), SetEveryoneOffline) && Safe(View())
    {
      StepSafe(View(), SetEveryoneOffline);
      KickOrSetAllOffline();
    }

    /** `char_db_kickoffline` for everybody. */
    method KickOrSetOffline(aid: int)
      requires aid in table && table[aid].server < slots.Length
      modifies `table, `live, `kicks
      ensures View() == OfflineEntry(old(View()), aid)
    {
      if table[aid].server > -1 {
        DisconnectPlayer(aid);
      } else if table[aid].timer == INVALID_TIMER {
        SetCharOffline(table[aid].charId, aid);
      }
    }

    /** `char_chardb_waiting_disconnect`. */
    method TimerExpired(tid: int)
      requires Safe(View()) && tid in live
      modifies `table, `live
      ensures View() == Step(old(View()), TimerFires(tid)) && Safe(View())
    {
      StepSafe(View(), TimerFires(tid));
      var aid := live[tid];
      live := live - {tid};
      if aid in table && table[aid].timer == tid {
        table := table[aid := table[aid].(timer := INVALID_TIMER)];
        SetCharOffline(table[aid].charId, aid);
      }
    }

    /** `char_online_data_cleanup_sub`. */
    method CleanUpEntry(aid: int)
      requires aid in table
      modifies `table, `live
      ensures View() == CleanEntry(old(View()), aid)
    {
      if table[aid].fd == -1 {
        if table[aid].server == -2 {
          SetCharOffline(table[aid].charId, aid);
        }
        if table[aid].server < 0 {
          table := table - {aid};
        }
      }
    }

    /** `char_online_data_cleanup_sub` on every entry. */
    method CleanUpEntries()
      requires Safe(View())
      modifies `table, `live
      ensures View() == OnCleanup(old(View()))
    {
      CleanNone(View());
      ghost var was := View();
      var keys, todo := table.Keys, table.Keys;
      assert keys - todo == {};
      while todo != {}
        invariant todo <= keys && View() == CleanSome(was, keys - todo)
        decreases |todo|
      {
        NonEmpty(todo);
        var aid :| aid in todo;
        CleanOne(was, keys - todo, aid);
        assert keys - (todo - {aid}) == keys - todo + {aid};
        CleanUpEntry(aid);
        todo := todo - {aid};
      }
      assert keys - todo == keys;
    }

    /** `char_online_data_cleanup`. */
    method CleanUp()
      requires Safe(View())
      modifies `table, `live
      ensures View() == Step(old(View()), Cleanup) && Safe(View())
    {
      StepSafe(View(), Cleanup);
      CleanUpEntries();
    }
  }

  lemma OfflineNone(s: State)
    ensures OfflineSome(s, {}) == s
  {
    assert OfflineSome(s, {}).table == s.table && OfflineSome(s, {}).kicks == s.kicks;
  }

  /** What the callback does to one more entry. */
  function OfflineEntry(s: State, aid: int): State
    requires aid in s.table && s.table[aid].server < |s.slots|
  {
    if s.table[aid].server > -1 then Kick(s, aid)
    else if s.table[aid].timer == INVALID_TIMER then SetOffline(s, s.table[aid].charId, aid)
    else s
  }

  lemma OfflineOne(s: State, done: set<int>, aid: int)
    requires Safe(s) && aid in s.table && aid !in done
    ensures var t := OfflineSome(s, done); aid in t.table && t.table[aid] == s.table[aid] && t.slots == s.slots
    ensures s.table[aid].server < |s.slots|
    ensures OfflineEntry(OfflineSome(s, done), aid) == OfflineSome(s, done + {aid})
  {
    assert EntryOk(s, aid);
    var t, u := OfflineEntry(OfflineSome(s, done), aid), OfflineSome(s, done + {aid});
    assert t.table == u.table;
    assert t.kicks == u.kicks;
  }

  lemma CleanNone(s: State)
    ensures CleanSome(s, {}) == s
  {
    assert CleanSome(s, {}).table == s.table && CleanSome(s, {}).live == s.live;
  }

  /** What the callback does to one more entry. */
  function CleanEntry(s: State, aid: int): State {
    if aid in s.table && s.table[aid].fd == -1 then
      var t := if s.table[aid].server == -2 then SetOffline(s, s.table[aid].charId, aid) else s;
      if t.table[aid].server < 0 then t.(table := t.table - {aid}) else t
    else s
  }

  lemma CleanOne(s: State, done: set<int>, aid: int)
    requires Safe(s) && aid in s.table && aid !in done
    ensures aid in CleanSome(s, done).table && CleanSome(s, done).table[aid] == s.table[aid]
    ensures CleanEntry(CleanSome(s, done), aid) == CleanSome(s, done + {aid})
  {
    assert EntryOk(s, aid);
    var t, u := CleanEntry(CleanSome(s, done), aid), CleanSome(s, done + {aid});
    assert t.table == u.table;
    assert t.live == u.live;
  }
}

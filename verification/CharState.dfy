/** The char-server's cached state: the online table with its disconnect timers, the slots of
    the map-servers, client sessions and auth tickets, and what every handler does to it. */
module CharState {
  import opened Wrappers

  const INVALID_TIMER := -1
  const MAX_MAP_SERVERS := 2

  /** `online_char_data`; server -1 is none, -2 one that is not connected. */
  datatype Entry = Entry(charId: int, fd: int, timer: int, server: int)

  /** `auth_node`; the serial number tells apart tickets with the same contents. */
  datatype Ticket = Ticket(serial: nat, charId: int, id1: int, id2: int)

  /** `char_session_data` of a client connection. */
  datatype Session = Session(account: int, id1: int, id2: int, auth: bool)

  /** What happens to auth tickets, in order. */
  datatype Note =
    | Issued(aid: int, ticket: Ticket)
    | Granted(aid: int, slot: int, ticket: Ticket, charId: int, id1: int)
    | Reconnected(aid: int, ticket: Ticket, id1: int, id2: int)
    | Autotraded(aid: int, slot: int)
    | Kicked(aid: int)

  /** A request to a map-server connection to disconnect a player. */
  datatype KickRequest = KickRequest(fd: int, aid: int, charId: int)

  datatype State = State(
    table: map<int, Entry>,          // online_char_db
    live: map<int, int>,             // running disconnect timers and their accounts
    slots: seq<int>,                 // map_server[].fd
    sessions: map<int, Session>,
    tickets: map<int, Ticket>,       // auth_db
    log: seq<Note>,
    kicks: set<KickRequest>)

  const Initial := State(map[], map[], [-1, -1], map[], map[], [], {})

  // ----- the functions that handlers share -----

  const NewEntry := Entry(-1, -1, INVALID_TIMER, -1)

  /** `idb_ensure` with `char_create_online_data`. */
  function Ensure(s: State, aid: int): State {
    if aid in s.table then s else s.(table := s.table[aid := NewEntry])
  }

  function StopTimer(s: State, aid: int): State
    requires aid in s.table
  {
    var e := s.table[aid];
    if e.timer == INVALID_TIMER then s
    else s.(table := s.table[aid := e.(timer := INVALID_TIMER)], live := s.live - {e.timer})
  }

  /** `add_timer`, unless a timer is running. */
  function StartTimer(s: State, aid: int, tid: int): State
    requires aid in s.table
  {
    var e := s.table[aid];
    if e.timer != INVALID_TIMER then s
    else s.(table := s.table[aid := e.(timer := tid)], live := s.live[tid := aid])
  }

  /** `mapif_disconnectplayer` to the map-server that the entry names. */
  function Kick(s: State, aid: int): State
    requires aid in s.table && 0 <= s.table[aid].server < |s.slots|
  {
    var e := s.table[aid];
    s.(kicks := s.kicks + {KickRequest(s.slots[e.server], aid, e.charId)})
  }

  predicate OnMapServer(s: State, aid: int) {
    aid in s.table && 0 <= s.table[aid].server < |s.slots|
  }

  /** `char_set_charselect`. */
  function SetCharselect(s: State, aid: int): State {
    var t := Ensure(s, aid);
    StopTimer(t.(table := t.table[aid := t.table[aid].(charId := -1, server := -1)]), aid)
  }

  /** `char_set_char_online`. */
  function SetOnline(s: State, server: int, charId: int, aid: int): State {
    var t := Ensure(s, aid);
    var e := t.table[aid];
    var u := if e.charId != -1 && OnMapServer(t, aid) && e.server != server then Kick(t, aid) else t;
    StopTimer(u.(table := u.table[aid := e.(charId := charId, server := server)]), aid)
  }

  /** `char_set_char_offline`. */
  function SetOffline(s: State, charId: int, aid: int): State {
    if aid !in s.table then s
    else
      var t := StopTimer(s, aid);
      if t.table[aid].charId == charId then
        t.(table := t.table[aid := t.table[aid].(charId := -1, server := -1)])
      else t
  }

  /** `idb_put` on the auth table. */
  function Issue(s: State, aid: int, charId: int, id1: int, id2: int): State {
    var ticket := Ticket(|s.log|, charId, id1, id2);
    s.(tickets := s.tickets[aid := ticket], log := s.log + [Issued(aid, ticket)])
  }

  /** `idb_remove` on the auth table, for the given reason. */
  function Withdraw(s: State, aid: int, note: Note): State {
    s.(tickets := s.tickets - {aid}, log := s.log + [note])
  }

  /** `char_auth_ok`.  `busy` says that the connection in the entry is open. */
  function AuthOk(s: State, fd: int, busy: bool, tid: int): State
    requires fd in s.sessions
  {
    var aid := s.sessions[fd].account;
    if OnMapServer(s, aid) then StartTimer(Kick(s, aid), aid, tid)
    else if aid in s.table && busy && s.table[aid].fd != fd then s
    else
      var t := if aid in s.table then s.(table := s.table[aid := s.table[aid].(fd := fd)]) else s;
      SetCharselect(t.(sessions := t.sessions[fd := t.sessions[fd].(auth := true)]), aid)
  }

  /** `char_db_setoffline` on every entry: those on the slot are now on an unknown server. */
  function DetachSlot(s: State, slot: int): State {
    s.(table := map aid | aid in s.table ::
         if s.table[aid].server == slot then s.table[aid].(server := -2) else s.table[aid])
  }

  /** One player that a map-server reports. */
  function Claim(s: State, slot: int, aid: int, charId: int): State {
    var t := Ensure(s, aid);
    var u := if OnMapServer(t, aid) && t.table[aid].server != slot then Kick(t, aid) else t;
    u.(table := u.table[aid := u.table[aid].(server := slot, charId := charId)])
  }

  function ClaimAll(s: State, slot: int, users: seq<(int, int)>): State
    decreases users
  {
    if users == [] then s else Claim(ClaimAll(s, slot, users[..|users| - 1]), slot,
                                     users[|users| - 1].0, users[|users| - 1].1)
  }

  // ----- events -----

  /** How selecting a character goes on. */
  datatype Selection =
    | NoServers | Refused | LoadFails
    | NoMap                             // no map-server has the map or a major city
    | Chosen

  /** What can reach the char-server.  `tid` is the number a timer gets if one is started. */
  datatype Event =
    | ReqToConnect(fd: int, aid: int, id1: int, id2: int, running: bool, busy: bool, tid: int)
    | LoginAccepts(fd: int, aid: int, id1: int, id2: int, busy: bool, tid: int)
    | CharSelect(fd: int, charId: int, selection: Selection)
    | ClientEof(fd: int)
    | AskKick(aid: int, tid: int)
    | MapLogin(fd: int, accepted: bool)
    | MapEof(slot: int)
    | RegMapUser(slot: int, users: seq<(int, int)>)
    | SaveChar(slot: int, aid: int, charId: int, known: bool, final: bool)
    | CharSelectAgain(aid: int, id1: int, id2: int, running: bool)
    | ReqChangeMapServ(aid: int, charId: int, id1: int, id2: int, target: int, running: bool)
    | ReqAuth(slot: int, aid: int, charId: int, id1: int, autotrade: bool, running: bool, loaded: bool)
    | SetCharOffline(charId: int, aid: int)
    | SetCharOnline(slot: int, charId: int, aid: int)
    | SetAllOffline(slot: int)
    | SetEveryoneOffline
    | TimerFires(tid: int)
    | Cleanup

  predicate Connected(s: State, slot: int) { 0 <= slot < |s.slots| && s.slots[slot] > 0 }

  predicate FreshTimer(s: State, tid: int) { tid >= 0 && tid !in s.live }

  /** What the environment provides: packets of map-servers come from connected slots, a search
      for a map-server finds a connected one, new timers get numbers not in use. */
  predicate Enabled(s: State, e: Event) {
    match e
    case ReqToConnect(_, _, _, _, _, _, tid) => FreshTimer(s, tid)
    case LoginAccepts(_, _, _, _, _, tid) => FreshTimer(s, tid)
    case AskKick(_, tid) => FreshTimer(s, tid)
    case MapLogin(fd, _) => fd > 0 && fd !in s.slots
    case MapEof(slot) => Connected(s, slot)
    case RegMapUser(slot, _) => Connected(s, slot)
    case SaveChar(slot, _, _, _, _) => Connected(s, slot)
    case ReqChangeMapServ(_, _, _, _, target, _) => target >= 0 ==> Connected(s, target)
    case ReqAuth(slot, _, _, _, _, _, _) => Connected(s, slot)
    case SetCharOnline(slot, _, _) => Connected(s, slot)
    case SetAllOffline(slot) => Connected(s, slot)
    case TimerFires(tid) => tid in s.live
    case _ => true
  }

  /** `chclif_parse_reqtoconnect`. */
  function OnReqToConnect(s: State, fd: int, aid: int, id1: int, id2: int, running: bool,
                          busy: bool, tid: int): State
  {
    if fd in s.sessions then s
    else
      var t := s.(sessions := s.sessions[fd := Session(aid, id1, id2, false)]);
      if !running then t
      else if aid in t.tickets && t.tickets[aid].id1 == id1 && t.tickets[aid].id2 == id2 then
        AuthOk(Withdraw(t, aid, Reconnected(aid, t.tickets[aid], id1, id2)), fd, busy, tid)
      else t
  }

  /** `chlogif_parse_ackaccreq` with a positive result. */
  function OnLoginAccepts(s: State, fd: int, aid: int, id1: int, id2: int, busy: bool, tid: int): State {
    if fd in s.sessions && s.sessions[fd] == Session(aid, id1, id2, false) then AuthOk(s, fd, busy, tid)
    else s
  }

  /** `chclif_parse_charselect`. */
  function OnCharSelect(s: State, fd: int, charId: int, selection: Selection): State {
    if fd !in s.sessions || !s.sessions[fd].auth then s
    else
      var session := s.sessions[fd];
      match selection
      case NoServers => s
      case Refused => s
      case LoadFails => SetOffline(SetOnline(s, -2, charId, session.account), charId, session.account)
      case NoMap => SetOnline(s, -2, charId, session.account)
      case Chosen =>
        Issue(SetOnline(s, -2, charId, session.account), session.account, charId, session.id1, session.id2)
  }

  /** The end of a client's connection in `chclif_parse`. */
  function OnClientEof(s: State, fd: int): State {
    if fd !in s.sessions then s
    else
      var session := s.sessions[fd];
      var aid := session.account;
      var t := s.(sessions := s.sessions - {fd});
      if !session.auth then t
      else
        var u := if aid in t.table && t.table[aid].fd == fd then
                   t.(table := t.table[aid := t.table[aid].(fd := -1)]) else t;
        if aid !in u.table || u.table[aid].server == -1 then SetOffline(u, -1, aid) else u
  }

  /** `chlogif_parse_askkick`.  A client still on the char-server is only marked for closing. */
  function OnAskKick(s: State, aid: int, tid: int): State {
    var t :=
      if OnMapServer(s, aid) then StartTimer(Kick(s, aid), aid, tid)
      else if aid in s.table && !(exists fd | fd in s.sessions :: s.sessions[fd].account == aid) then
        SetOffline(s, -1, aid)
      else s;
    Withdraw(t, aid, Kicked(aid))
  }

  /** The first slot whose connection is not open, as ARR_FIND finds it. */
  function FreeSlot(slots: seq<int>, i: nat): nat
    requires i <= |slots|
    decreases |slots| - i
  {
    if i == |slots| || slots[i] <= 0 then i else FreeSlot(slots, i + 1)
  }

  /** `chclif_parse_maplogin`. */
  function OnMapLogin(s: State, fd: int, accepted: bool): State {
    var i := FreeSlot(s.slots, 0);
    if accepted && i < |s.slots| then s.(slots := s.slots[i := fd]) else s
  }

  /** `chmapif_parse` at the end of the connection, with `chmapif_server_reset`. */
  function OnMapEof(s: State, slot: int): State
    requires 0 <= slot < |s.slots|
  {
    var t := DetachSlot(s, slot);
    t.(slots := t.slots[slot := -1])
  }

  /** `chmapif_parse_reqsavechar`; `known` stands for the flags that skip the check. */
  function OnSaveChar(s: State, slot: int, aid: int, charId: int, known: bool, final: bool): State {
    var t := if known || final || (aid in s.table && s.table[aid].charId == charId) then s
             else SetOnline(s, slot, charId, aid);
    if final then SetOffline(t, charId, aid) else t
  }

  /** `chmapif_parse_authok`: a player goes back to character selection. */
  function OnCharSelectAgain(s: State, aid: int, id1: int, id2: int, running: bool): State {
    if running then SetCharselect(Issue(s, aid, 0, id1, id2), aid) else s
  }

  /** `chmapif_parse_reqchangemapserv`. */
  function OnReqChangeMapServ(s: State, aid: int, charId: int, id1: int, id2: int, target: int,
                              running: bool): State
  {
    if running && target >= 0 then
      var t := Ensure(Issue(s, aid, charId, id1, id2), aid);
      t.(table := t.table[aid := t.table[aid].(charId := charId, server := target)])
    else s
  }

  /** `chmapif_parse_reqauth`; `loaded` says that the character's data is there. */
  function OnReqAuth(s: State, slot: int, aid: int, charId: int, id1: int, autotrade: bool,
                     running: bool, loaded: bool): State
  {
    if !running || !loaded then s
    else if autotrade then
      SetOnline(s.(log := s.log + [Autotraded(aid, slot)]), slot, charId, aid)
    else if aid in s.tickets && s.tickets[aid].charId == charId && s.tickets[aid].id1 == id1 then
      SetOnline(Withdraw(s, aid, Granted(aid, slot, s.tickets[aid], charId, id1)), slot, charId, aid)
    else s
  }

  /** `char_set_all_offline` for one map-server: each of its players is to be disconnected. */
  function OnSetAllOffline(s: State, slot: int): State
    requires 0 <= slot < |s.slots|
  {
    s.(kicks := s.kicks + set aid | aid in s.table && s.table[aid].server == slot ::
                            KickRequest(s.slots[slot], aid, s.table[aid].charId))
  }

  /** On no map-server, known or unknown, that is about to hear that the player has to go. */
  predicate Idle(e: Entry) { e.server < 0 && e.timer == INVALID_TIMER }

  /** `char_set_all_offline` for everybody, as far as some of the entries: who is on a map-server
      is to be disconnected, others are set offline unless a disconnect timer runs for them. */
  function OfflineSome(s: State, done: set<int>): State {
    s.(table := map aid | aid in s.table ::
         if aid in done && Idle(s.table[aid]) then s.table[aid].(charId := -1, server := -1) else s.table[aid],
       kicks := s.kicks + set aid | aid in s.table && aid in done && OnMapServer(s, aid) ::
                            KickRequest(s.slots[s.table[aid].server], aid, s.table[aid].charId))
  }

  /** `char_chardb_waiting_disconnect`. */
  function OnTimer(s: State, tid: int): State
    requires tid in s.live
  {
    var aid := s.live[tid];
    var t := s.(live := s.live - {tid});
    if aid in t.table && t.table[aid].timer == tid then
      SetOffline(t.(table := t.table[aid := t.table[aid].(timer := INVALID_TIMER)]),
                 t.table[aid].charId, aid)
    else t
  }

  /** The entry is dropped by the cleanup: not connected here nor to a known map-server. */
  predicate Stale(e: Entry) { e.fd == -1 && e.server < 0 }

  /** The entry holds the timer and goes away with it: what is on an unknown server is set
      offline before it is dropped. */
  predicate DropsTimer(s: State, aid: int, t: int) {
    aid in s.table && Stale(s.table[aid]) && s.table[aid].server == -2 && s.table[aid].timer == t
  }

  /** The cleanup of some of the entries. */
  function CleanSome(s: State, done: set<int>): State {
    s.(table := map aid | aid in s.table && !(aid in done && Stale(s.table[aid])) :: s.table[aid],
       live := map t | t in s.live && !(s.live[t] in done && DropsTimer(s, s.live[t], t)) :: s.live[t])
  }

  /** `char_online_data_cleanup`. */
  function OnCleanup(s: State): State { CleanSome(s, s.table.Keys) }

  function Step(s: State, e: Event): State {
    if !Enabled(s, e) then s
    else
      match e
      case ReqToConnect(fd, aid, id1, id2, running, busy, tid) =>
        OnReqToConnect(s, fd, aid, id1, id2, running, busy, tid)
      case LoginAccepts(fd, aid, id1, id2, busy, tid) => OnLoginAccepts(s, fd, aid, id1, id2, busy, tid)
      case CharSelect(fd, charId, selection) => OnCharSelect(s, fd, charId, selection)
      case ClientEof(fd) => OnClientEof(s, fd)
      case AskKick(aid, tid) => OnAskKick(s, aid, tid)
      case MapLogin(fd, accepted) => OnMapLogin(s, fd, accepted)
      case MapEof(slot) => OnMapEof(s, slot)
      case RegMapUser(slot, users) => ClaimAll(DetachSlot(s, slot), slot, users)
      case SaveChar(slot, aid, charId, known, final) => OnSaveChar(s, slot, aid, charId, known, final)
      case CharSelectAgain(aid, id1, id2, running) => OnCharSelectAgain(s, aid, id1, id2, running)
      case ReqChangeMapServ(aid, charId, id1, id2, target, running) =>
        OnReqChangeMapServ(s, aid, charId, id1, id2, target, running)
      case ReqAuth(slot, aid, charId, id1, autotrade, running, loaded) =>
        OnReqAuth(s, slot, aid, charId, id1, autotrade, running, loaded)
      case SetCharOffline(charId, aid) => SetOffline(s, charId, aid)
      case SetCharOnline(slot, charId, aid) => SetOnline(s, slot, charId, aid)
      case SetAllOffline(slot) => OnSetAllOffline(s, slot)
      case SetEveryoneOffline => OfflineSome(s, s.table.Keys)
      case TimerFires(tid) => OnTimer(s, tid)
      case Cleanup => OnCleanup(s)
  }

  /** The state after a sequence of events; what is not enabled does not happen. */
  function Run(events: seq<Event>): State {
    if events == [] then Initial else Step(Run(events[..|events| - 1]), events[|events| - 1])
  }
}

/** Whispers between map-servers: a request is forwarded to all of them and answered once. */
module Whispers {
  import opened Wrappers

  const WISDATA_TTL := 60 * 1000
  const WISDELLIST_MAX := 256

  /** The answer for a player who is on no map-server. */
  const NOT_FOUND := 1

  /** `WisData`: who asked, how many map-servers were asked and how many have not answered. */
  datatype Wis = Wis(fd: int, src: string, asked: nat, count: int, tick: int)

  /** What goes out and comes in about a whisper, in order. */
  datatype Note =
    | Forwarded(id: int, asked: nat)
    | Replied(id: int, flag: int)
    | Answered(id: int, fd: int, src: string, flag: int)
    | Refused(id: int, fd: int, src: string)      // the character does not exist, or is the sender

  datatype State = State(wis: map<int, Wis>, last: nat, log: seq<Note>)

  const Initial := State(map[], 0, [])

  predicate TimedOut(w: Wis, now: int) { now - w.tick > WISDATA_TTL }

  /** `check_ttl_wisdata`: exactly the entries that timed out are removed. */
  function Expire(s: State, now: int): State {
    s.(wis := map id | id in s.wis && !TimedOut(s.wis[id], now) :: s.wis[id])
  }

  /** `mapif_parse_WisRequest`; `forward` says that the target exists and is not the sender,
      `asked` is the number of map-servers that the message reached. */
  function Request(s: State, fd: int, src: string, forward: bool, asked: nat, now: int): State {
    if !forward then s.(log := s.log + [Refused(0, fd, src)])
    else
      var t := Expire(s, now);
      var id := t.last + 1;
      t.(last := id, wis := t.wis[id := Wis(fd, src, asked, asked, now)], log := t.log + [Forwarded(id, asked)])
  }

  /** `mapif_parse_WisReply`. */
  function Reply(s: State, id: int, flag: int): State {
    if id !in s.wis then s
    else
      var w := s.wis[id].(count := s.wis[id].count - 1);
      var t := s.(log := s.log + [Replied(id, flag)]);
      if w.count <= 0 || flag != NOT_FOUND then
        t.(wis := t.wis - {id}, log := t.log + [Answered(id, w.fd, w.src, flag)])
      else t.(wis := t.wis[id := w])
  }

  // ----- what the log says about one whisper -----

  function Replies(log: seq<Note>, id: int): nat {
    if log == [] then 0
    else
      var last := log[|log| - 1];
      Replies(log[..|log| - 1], id) + if last.Replied? && last.id == id then 1 else 0
  }

  function Answers(log: seq<Note>, id: int): nat {
    if log == [] then 0
    else
      var last := log[|log| - 1];
      Answers(log[..|log| - 1], id) + if last.Answered? && last.id == id then 1 else 0
  }

  /** How many map-servers the request was forwarded to. */
  function Asked(log: seq<Note>, id: int): nat {
    if log == [] then 0
    else
      var last := log[|log| - 1];
      if last.Forwarded? && last.id == id then last.asked else Asked(log[..|log| - 1], id)
  }

  /** All replies so far are "not found". */
  predicate NoneFound(log: seq<Note>, id: int) {
    forall i | 0 <= i < |log| :: log[i].Replied? && log[i].id == id ==> log[i].flag == NOT_FOUND
  }

  /** An answer passes on the reply right before it, and is "not found" only if as many replies
      as there were servers asked, but at least one, all said so. */
  predicate AnswerOk(log: seq<Note>, i: nat)
    requires i < |log|
  {
    log[i].Answered? ==>
      && i > 0 && log[i - 1] == Replied(log[i].id, log[i].flag)
      && Answers(log[..i], log[i].id) == 0
      && (log[i].flag == NOT_FOUND ==>
            && NoneFound(log[..i], log[i].id)
            && Replies(log[..i], log[i].id) == if Asked(log[..i], log[i].id) > 0 then Asked(log[..i], log[i].id) else 1)
  }

  /** A whisper that is waiting: nobody has found the target and nobody has been told. */
  predicate WaitingOk(s: State, id: int)
    requires id in s.wis
  {
    var w := s.wis[id];
    && 0 < id <= s.last && w.asked == Asked(s.log, id) && w.count == w.asked - Replies(s.log, id)
    && Answers(s.log, id) == 0 && NoneFound(s.log, id)
    && (w.count > 0 || (w.asked == 0 && w.count == 0))
  }

  predicate Unused(log: seq<Note>, id: int) {
    forall i | 0 <= i < |log| :: log[i].id == id ==> log[i].Refused?
  }

  ghost predicate Safe(s: State) {
    && (forall id | id in s.wis :: WaitingOk(s, id))
    && (forall id | id > s.last :: Unused(s.log, id))
    && (forall i | 0 <= i < |s.log| :: AnswerOk(s.log, i))
  }

  // ----- one more note -----

  lemma AfterNote(log: seq<Note>, note: Note, id: int)
    ensures Replies(log + [note], id) == Replies(log, id) + if note.Replied? && note.id == id then 1 else 0
    ensures Answers(log + [note], id) == Answers(log, id) + if note.Answered? && note.id == id then 1 else 0
    ensures Asked(log + [note], id) == if note.Forwarded? && note.id == id then note.asked else Asked(log, id)
    ensures NoneFound(log + [note], id) <==>
              NoneFound(log, id) && (note.Replied? && note.id == id ==> note.flag == NOT_FOUND)
  {
    assert (log + [note])[..|log|] == log;
    var all := log + [note];
    assert all[|log|] == note && forall i | 0 <= i < |log| :: all[i] == log[i];
  }

  lemma AnswersStayOk(log: seq<Note>, note: Note)
    requires forall i | 0 <= i < |log| :: AnswerOk(log, i)
    requires AnswerOk(log + [note], |log|)
    ensures forall i | 0 <= i < |log + [note]| :: AnswerOk(log + [note], i)
  {
    forall i | 0 <= i < |log + [note]| ensures AnswerOk(log + [note], i) {
      if i < |log| {
        assert AnswerOk(log, i) && (log + [note])[..i] == log[..i];
      }
    }
  }

  lemma {:induction false} UnusedIsEmpty(log: seq<Note>, id: int)
    requires Unused(log, id)
    ensures Replies(log, id) == 0 && Answers(log, id) == 0 && Asked(log, id) == 0 && NoneFound(log, id)
  {
    if log != [] {
      UnusedIsEmpty(log[..|log| - 1], id);
    }
  }

  lemma UnusedAfter(log: seq<Note>, note: Note, id: int)
    requires Unused(log, id) && (note.id == id ==> note.Refused?)
    ensures Unused(log + [note], id)
  {
    assert forall i | 0 <= i < |log| :: (log + [note])[i] == log[i];
  }

  // ----- every handler keeps it -----

  lemma ExpireSafe(s: State, now: int)
    requires Safe(s)
    ensures Safe(Expire(s, now))
  {
    forall id | id in Expire(s, now).wis ensures WaitingOk(Expire(s, now), id) {
      assert WaitingOk(s, id);
    }
  }

  lemma RequestSafe(s: State, fd: int, src: string, forward: bool, asked: nat, now: int)
    requires Safe(s)
    ensures Safe(Request(s, fd, src, forward, asked, now))
  {
    ExpireSafe(s, now);
    var t := if forward then Expire(s, now) else s;
    var u := Request(s, fd, src, forward, asked, now);
    var note := if forward then Forwarded(t.last + 1, asked) else Refused(0, fd, src);
    assert u.log == t.log + [note];
    AnswersStayOk(t.log, note);
    forall id | id > u.last ensures Unused(u.log, id) {
      UnusedAfter(t.log, note, id);
    }
    forall id | id in u.wis ensures WaitingOk(u, id) {
      AfterNote(t.log, note, id);
      if id in t.wis {
        assert WaitingOk(t, id);
      } else {
        UnusedIsEmpty(t.log, id);
      }
    }
  }

  lemma ReplySafe(s: State, id: int, flag: int)
    requires Safe(s)
    ensures Safe(Reply(s, id, flag))
  {
    if id in s.wis {
      assert WaitingOk(s, id);
      var w := s.wis[id].(count := s.wis[id].count - 1);
      var note := Replied(id, flag);
      var log := s.log + [note];
      AnswersStayOk(s.log, note);
      AfterNote(s.log, note, id);
      var u := Reply(s, id, flag);
      if w.count <= 0 || flag != NOT_FOUND {
        var answer := Answered(id, w.fd, w.src, flag);
        forall b | b > u.last ensures Unused(u.log, b) {
          UnusedAfter(s.log, note, b);
          UnusedAfter(log, answer, b);
        }
        assert (log + [answer])[..|log|] == log;
        AnswersStayOk(log, answer);
        forall b | b in u.wis ensures WaitingOk(u, b) {
          assert WaitingOk(s, b);
          AfterNote(s.log, note, b);
          AfterNote(log, answer, b);
        }
      } else {
        forall b | b > u.last ensures Unused(u.log, b) {
          UnusedAfter(s.log, note, b);
        }
        forall b | b in u.wis ensures WaitingOk(u, b) {
          assert WaitingOk(s, b);
          AfterNote(s.log, note, b);
        }
      }
    }
  }

  // ----- every run -----

  datatype Event =
    | WisRequest(fd: int, src: string, forward: bool, asked: nat, now: int)
    | WisReply(id: int, flag: int)

  function Step(s: State, e: Event): State {
    match e
    case WisRequest(fd, src, forward, asked, now) => Request(s, fd, src, forward, asked, now)
    case WisReply(id, flag) => Reply(s, id, flag)
  }

  function Run(events: seq<Event>): State {
    if events == [] then Initial else Step(Run(events[..|events| - 1]), events[|events| - 1])
  }

  lemma {:induction false} RunIsSafe(events: seq<Event>)
    ensures Safe(Run(events))
  {
    if events != [] {
      var before, last := events[..|events| - 1], events[|events| - 1];
      RunIsSafe(before);
      match last
      case WisRequest(fd, src, forward, asked, now) => RequestSafe(Run(before), fd, src, forward, asked, now);
      case WisReply(id, flag) => ReplySafe(Run(before), id, flag);
    }
  }

  /** No request is answered twice. */
  lemma AnsweredOnce(events: seq<Event>, i: nat, j: nat)
    requires i < j < |Run(events).log| && Run(events).log[i].Answered? && Run(events).log[j].Answered?
    ensures Run(events).log[i].id != Run(events).log[j].id
  {
    RunIsSafe(events);
    var log := Run(events).log;
    assert AnswerOk(log, j);
    CountsAnswer(log[..j], i);
  }

  lemma {:induction false} CountsAnswer(log: seq<Note>, i: nat)
    requires i < |log| && log[i].Answered?
    ensures Answers(log, log[i].id) > 0
  {
    if i < |log| - 1 {
      CountsAnswer(log[..|log| - 1], i);
    }
  }

  /** "Not found" is reported only after every server asked has said so, and nobody else has
      said anything else. */
  lemma NotFoundMeansNowhere(events: seq<Event>, i: nat)
    requires i < |Run(events).log| && Run(events).log[i].Answered? && Run(events).log[i].flag == NOT_FOUND
    ensures var log := Run(events).log; var id := log[i].id;
            Replies(log[..i], id) >= Asked(log[..i], id) && Replies(log[..i], id) > 0 && NoneFound(log[..i], id)
  {
    RunIsSafe(events);
    assert AnswerOk(Run(events).log, i);
  }

  // ----- as it runs -----

  lemma NonEmpty(s: set<int>)
    requires s != {}
    ensures exists x :: x in s
  {
    assert (forall x :: x !in s) ==> s == {};
  }

  lemma Smaller(a: set<int>, b: set<int>, x: int)
    requires a <= b && x in b && x !in a
    ensures a < b
  {
    assert b <= a ==> x in a;
  }

  class WisServer {
    var wis: map<int, Wis>
    var last: nat                       // wisid
    const dellist: array<int>           // wis_dellist
    var delnum: nat
    var log: seq<Note>                  // the messages about whispers, as the proofs speak about them

    ghost predicate Valid()
      reads this
    {
      dellist.Length == WISDELLIST_MAX && delnum <= dellist.Length
    }

    ghost function View(): State
      reads this
    {
      State(wis, last, log)
    }

    constructor ()
      ensures Valid() && View() == Initial && fresh(dellist)
    {
      wis := map[];
      last := 0;
      dellist := new int[WISDELLIST_MAX](_ => 0);
      delnum := 0;
      log := [];
    }

    /** The callback over all entries, in any order: notes those that timed out while there is
        room for them. */
    method Collect(now: int)
      requires Valid()
      modifies `delnum, dellist
      ensures Valid()
      ensures forall i | 0 <= i < delnum :: dellist[i] in wis && TimedOut(wis[dellist[i]], now)
      ensures forall i, j | 0 <= i < j < delnum :: dellist[i] != dellist[j]
      ensures delnum < WISDELLIST_MAX ==>
                forall id | id in wis && TimedOut(wis[id], now) :: id in dellist[..delnum]
    {
      delnum := 0;
      var todo := wis.Keys;
      while todo != {}
        invariant todo <= wis.Keys && Valid()
        invariant forall i | 0 <= i < delnum ::
                    dellist[i] in wis && TimedOut(wis[dellist[i]], now) && dellist[i] !in todo
        invariant forall i, j | 0 <= i < j < delnum :: dellist[i] != dellist[j]
        invariant delnum < WISDELLIST_MAX ==>
                    forall id | id in wis && TimedOut(wis[id], now) :: id in todo || id in dellist[..delnum]
        decreases |todo|
      {
        NonEmpty(todo);
        var id :| id in todo;
        if TimedOut(wis[id], now) && delnum < WISDELLIST_MAX {
          dellist[delnum] := id;
          delnum := delnum + 1;
          assert dellist[..delnum] == dellist[..delnum - 1] + [id];
        }
        todo := todo - {id};
      }
    }

    /** `check_ttl_wisdata`: batches of at most WISDELLIST_MAX until a batch is not full. */
    method CheckTtl(now: int)
      requires Valid()
      modifies `wis, `delnum, dellist
      ensures Valid() && View() == Expire(old(View()), now)
    {
      while true
        invariant Valid()
        invariant forall id | id in wis :: id in old(wis) && wis[id] == old(wis)[id]
        invariant forall id | id in old(wis) && id !in wis :: TimedOut(old(wis)[id], now)
        decreases wis.Keys
      {
        ghost var before := wis;
        Collect(now);
        RemoveListed();
        if delnum < WISDELLIST_MAX {
          assert forall id | id in wis :: id in before && !TimedOut(wis[id], now);
          break;
        }
        assert dellist[0] == dellist[..delnum][0];
        assert forall id | id in wis.Keys :: id in before.Keys;
        Smaller(wis.Keys, before.Keys, dellist[0]);
      }
      ghost var expired := Expire(old(View()), now).wis;
      assert forall id | id in wis :: id in expired;
      assert forall id | id in expired :: id in wis && wis[id] == expired[id];
      assert wis.Keys == expired.Keys;
      assert wis == expired;
    }

    /** Removes the entries of the batch. */
    method RemoveListed()
      requires Valid()
      modifies `wis
      ensures forall id | id in wis :: id in old(wis) && wis[id] == old(wis)[id] && id !in dellist[..delnum]
      ensures forall id | id in old(wis) && id !in dellist[..delnum] :: id in wis
    {
      for i := 0 to delnum
        invariant forall id | id in wis :: id in old(wis) && wis[id] == old(wis)[id] && id !in dellist[..i]
        invariant forall id | id in old(wis) && id !in dellist[..i] :: id in wis
      {
        wis := wis - {dellist[i]};
        assert dellist[..i + 1] == dellist[..i] + [dellist[i]];
      }
    }

    /** `mapif_parse_WisRequest`. */
    method ForwardWhisper(fd: int, src: string, forward: bool, asked: nat, now: int)
      requires Valid() && Safe(View())
      modifies this, dellist
      ensures Valid() && Safe(View())
      ensures View() == Step(old(View()), WisRequest(fd, src, forward, asked, now))
    {
      RequestSafe(View(), fd, src, forward, asked, now);
      if !forward {
        log := log + [Refused(0, fd, src)];
        return;
      }
      CheckTtl(now);
      last := last + 1;
      wis := wis[last := Wis(fd, src, asked, asked, now)];
      log := log + [Forwarded(last, asked)];
    }

    /** `mapif_parse_WisReply`. */
    method TakeReply(id: int, flag: int)
      requires Valid() && Safe(View())
      modifies `wis, `log
      ensures Valid() && Safe(View()) && View() == Step(old(View()), WisReply(id, flag))
    {
      ReplySafe(View(), id, flag);
      if id !in wis {
        return;
      }
      var w := wis[id].(count := wis[id].count - 1);
      wis := wis[id := w];
      log := log + [Replied(id, flag)];
      if w.count <= 0 || flag != NOT_FOUND {
        log := log + [Answered(id, w.fd, w.src, flag)];
        wis := wis - {id};
        assert wis == old(wis) - {id};
      }
    }
  }
}

/** Whom whispers are answered to, and when: told from the events alone. */
module WhisperRuns {
  import opened Wrappers
  import opened Whispers

  /** How many requests have been forwarded. */
  function Forwards(events: seq<Event>): nat {
    if events == [] then 0
    else
      var last := events[|events| - 1];
      Forwards(events[..|events| - 1]) + if last.WisRequest? && last.forward then 1 else 0
  }

  /** The place of the request that was the `id`-th to be forwarded. */
  predicate IsRequest(events: seq<Event>, i: nat, id: int) {
    i < |events| && events[i].WisRequest? && events[i].forward && Forwards(events[..i]) + 1 == id
  }

  /** Nothing after the request has made it time out. */
  predicate InTime(events: seq<Event>, i: nat)
    requires i < |events| && events[i].WisRequest?
  {
    forall j | i < j < |events| && events[j].WisRequest? && events[j].forward ::
      events[j].now - events[i].now <= 60000
  }

  predicate IsAnswered(log: seq<Note>, id: int) {
    exists k | 0 <= k < |log| :: log[k].Answered? && log[k].id == id
  }

  // ----- requests and their numbers -----

  lemma {:induction false} NumbersCount(events: seq<Event>)
    ensures Run(events).last == Forwards(events)
  {
    if events != [] {
      NumbersCount(events[..|events| - 1]);
    }
  }

  lemma RequestBefore(events: seq<Event>, e: Event, i: nat, id: int)
    requires i < |events|
    ensures IsRequest(events + [e], i, id) <==> IsRequest(events, i, id)
  {
    assert (events + [e])[..i] == events[..i] && (events + [e])[i] == events[i];
  }

  lemma {:induction false} ForwardsGrow(events: seq<Event>, i: nat, j: nat)
    requires i <= j <= |events|
    ensures Forwards(events[..i]) <= Forwards(events[..j])
    decreases j
  {
    if i < j {
      assert events[..j][..j - 1] == events[..j - 1];
      ForwardsGrow(events, i, j - 1);
    }
  }

  /** A number is given once. */
  lemma RequestIsUnique(events: seq<Event>, i: nat, j: nat, id: int)
    requires IsRequest(events, i, id) && IsRequest(events, j, id)
    ensures i == j
  {
    if i < j {
      NextForward(events, i);
      ForwardsGrow(events, i + 1, j);
    } else if j < i {
      NextForward(events, j);
      ForwardsGrow(events, j + 1, i);
    }
  }

  lemma NextForward(events: seq<Event>, i: nat)
    requires i < |events| && events[i].WisRequest? && events[i].forward
    ensures Forwards(events[..i + 1]) == Forwards(events[..i]) + 1
  {
    assert events[..i + 1][..i] == events[..i];
  }

  // ----- who waits for what -----

  /** The waiting entry is that of the request with its number. */
  ghost predicate EntryIs(events: seq<Event>, s: State, id: int)
    requires id in s.wis
  {
    exists i: nat :: IsRequest(events, i, id) && InTime(events, i)
      && s.wis[id].fd == events[i].fd && s.wis[id].src == events[i].src && s.wis[id].tick == events[i].now
  }

  /** Answers have gone to whoever asked. */
  ghost predicate NoteIs(events: seq<Event>, note: Note) {
    note.Answered? ==>
      exists i: nat :: IsRequest(events, i, note.id) && note.fd == events[i].fd && note.src == events[i].src
  }

  ghost predicate Attributed(events: seq<Event>, s: State) {
    && (forall id | id in s.wis :: EntryIs(events, s, id))
    && (forall k | 0 <= k < |s.log| :: NoteIs(events, s.log[k]))
  }

  lemma NoteStays(events: seq<Event>, e: Event, note: Note)
    requires NoteIs(events, note)
    ensures NoteIs(events + [e], note)
  {
    if note.Answered? {
      var i: nat :| IsRequest(events, i, note.id) && note.fd == events[i].fd && note.src == events[i].src;
      RequestBefore(events, e, i, note.id);
    }
  }

  lemma EntryStays(events: seq<Event>, e: Event, s: State, t: State, id: int)
    requires id in s.wis && id in t.wis && EntryIs(events, s, id)
    requires t.wis[id].fd == s.wis[id].fd && t.wis[id].src == s.wis[id].src && t.wis[id].tick == s.wis[id].tick
    requires e.WisRequest? && e.forward ==> e.now - s.wis[id].tick <= 60000
    ensures EntryIs(events + [e], t, id)
  {
    var i: nat :| IsRequest(events, i, id) && InTime(events, i)
      && s.wis[id].fd == events[i].fd && s.wis[id].src == events[i].src && s.wis[id].tick == events[i].now;
    RequestBefore(events, e, i, id);
    var all := events + [e];
    forall j | i < j < |all| && all[j].WisRequest? && all[j].forward ensures all[j].now - all[i].now <= 60000 {
      assert j < |events| ==> all[j] == events[j];
    }
  }

  lemma RequestAttributed(events: seq<Event>, e: Event)
    requires Attributed(events, Run(events)) && e.WisRequest? && Run(events).last == Forwards(events)
    ensures Attributed(events + [e], Step(Run(events), e))
  {
    var s, t, all := Run(events), Step(Run(events), e), events + [e];
    forall id | id in t.wis ensures EntryIs(all, t, id) {
      if e.forward && id == s.last + 1 {
        assert all[..|events|] == events && all[|events|] == e;
        assert IsRequest(all, |events|, id) && InTime(all, |events|);
      } else {
        EntryStays(events, e, s, t, id);
      }
    }
    forall k | 0 <= k < |t.log| ensures NoteIs(all, t.log[k]) {
      if k < |s.log| {
        NoteStays(events, e, s.log[k]);
      }
    }
  }

  lemma ReplyAttributed(events: seq<Event>, e: Event)
    requires Attributed(events, Run(events)) && e.WisReply?
    ensures Attributed(events + [e], Step(Run(events), e))
  {
    var s, t, all := Run(events), Step(Run(events), e), events + [e];
    forall id | id in t.wis ensures EntryIs(all, t, id) {
      EntryStays(events, e, s, t, id);
    }
    forall k | 0 <= k < |t.log| ensures NoteIs(all, t.log[k]) {
      if k < |s.log| {
        assert t.log[k] == s.log[k];
        NoteStays(events, e, s.log[k]);
      } else if t.log[k].Answered? {
        var i: nat :| IsRequest(events, i, e.id) && InTime(events, i)
          && s.wis[e.id].fd == events[i].fd && s.wis[e.id].src == events[i].src && s.wis[e.id].tick == events[i].now;
        RequestBefore(events, e, i, e.id);
      }
    }
  }

  lemma {:induction false} RunIsAttributed(events: seq<Event>)
    ensures Attributed(events, Run(events))
  {
    if events != [] {
      var before, e := events[..|events| - 1], events[|events| - 1];
      RunIsAttributed(before);
      NumbersCount(before);
      assert events == before + [e];
      if e.WisRequest? {
        RequestAttributed(before, e);
      } else {
        ReplyAttributed(before, e);
      }
    }
  }

  /** Every answer in a run goes to the connection and the player that sent the request. */
  lemma AnswerGoesBack(events: seq<Event>, k: nat) returns (i: nat)
    requires k < |Run(events).log| && Run(events).log[k].Answered?
    ensures IsRequest(events, i, Run(events).log[k].id)
    ensures Run(events).log[k].fd == events[i].fd && Run(events).log[k].src == events[i].src
  {
    RunIsAttributed(events);
    var note := Run(events).log[k];
    assert NoteIs(events, note);
    i :| IsRequest(events, i, note.id) && note.fd == events[i].fd && note.src == events[i].src;
  }

  // ----- answers that have to come -----

  /** A forwarded request stays as long as it is neither answered nor has timed out. */
  lemma {:induction false} StillWaiting(events: seq<Event>, i: nat, id: int)
    requires IsRequest(events, i, id) && InTime(events, i) && !IsAnswered(Run(events).log, id)
    ensures id in Run(events).wis && Run(events).wis[id].tick == events[i].now
    decreases |events|
  {
    var before, e := events[..|events| - 1], events[|events| - 1];
    NumbersCount(before);
    assert events == before + [e];
    if i < |events| - 1 {
      RequestBefore(before, e, i, id);
      assert forall j | i < j < |before| :: before[j] == events[j];
      NotAnsweredBefore(before, e, id);
      StillWaiting(before, i, id);
      StaysWaiting(before, e, id);
    } else {
      assert events[..i] == before;
    }
  }

  lemma NotAnsweredBefore(events: seq<Event>, e: Event, id: int)
    requires !IsAnswered(Step(Run(events), e).log, id)
    ensures !IsAnswered(Run(events).log, id)
  {
    var s, t := Run(events), Step(Run(events), e);
    assert |s.log| <= |t.log| && t.log[..|s.log|] == s.log;
    assert forall k | 0 <= k < |s.log| :: t.log[k] == s.log[k];
  }

  lemma WaitsOrAnswered(s: State, id: int, flag: int)
    ensures id in s.wis ==> id in Reply(s, id, flag).wis || IsAnswered(Reply(s, id, flag).log, id)
  {
    var t := Reply(s, id, flag);
    if id in s.wis && id !in t.wis {
      assert t.log[|t.log| - 1].Answered? && t.log[|t.log| - 1].id == id;
    }
  }

  lemma StaysWaiting(events: seq<Event>, e: Event, id: int)
    requires id in Run(events).wis && !IsAnswered(Step(Run(events), e).log, id)
    requires e.WisRequest? && e.forward ==> e.now - Run(events).wis[id].tick <= 60000
    ensures id in Step(Run(events), e).wis && Step(Run(events), e).wis[id].tick == Run(events).wis[id].tick
  {
    RunIsSafe(events);
    var s, t := Run(events), Step(Run(events), e);
    assert WaitingOk(s, id);
    if e.WisReply? && e.id == id {
      WaitsOrAnswered(s, id, e.flag);
    }
  }

  /** A reply to a request that is neither answered nor timed out is passed on to whoever asked,
      if it says anything but "not found" or is the last that can come. */
  lemma ReplyIsPassedOn(events: seq<Event>, i: nat, id: int, flag: int)
    requires IsRequest(events, i, id) && InTime(events, i) && !IsAnswered(Run(events).log, id)
    requires flag != 1 || Replies(Run(events).log, id) + 1 >= events[i].asked
    ensures Run(events + [WisReply(id, flag)]).log ==
            Run(events).log + [Replied(id, flag), Answered(id, events[i].fd, events[i].src, flag)]
    ensures id !in Run(events + [WisReply(id, flag)]).wis
  {
    var e := WisReply(id, flag);
    assert (events + [e])[..|events|] == events;
    StillWaiting(events, i, id);
    RunIsAttributed(events);
    RunIsSafe(events);
    var s := Run(events);
    assert EntryIs(events, s, id) && WaitingOk(s, id);
    var j: nat :| IsRequest(events, j, id) && InTime(events, j)
      && s.wis[id].fd == events[j].fd && s.wis[id].src == events[j].src && s.wis[id].tick == events[j].now;
    RequestIsUnique(events, i, j, id);
    AskedIs(events, i, id);
  }

  /** The log has the number of map-servers that the request reached. */
  lemma {:induction false} AskedIs(events: seq<Event>, i: nat, id: int)
    requires IsRequest(events, i, id)
    ensures Asked(Run(events).log, id) == events[i].asked
    decreases |events|
  {
    var before, e := events[..|events| - 1], events[|events| - 1];
    NumbersCount(before);
    assert events == before + [e];
    if i < |events| - 1 {
      RequestBefore(before, e, i, id);
      AskedIs(before, i, id);
      ForwardsGrow(before, i + 1, |before|);
      NextForward(before, i);
      assert before[..|before|] == before;
      AskedStays(before, e, id);
    } else {
      assert events[..i] == before;
      AfterNote(Run(before).log, Forwarded(id, e.asked), id);
    }
  }

  lemma AskedStays(events: seq<Event>, e: Event, id: int)
    requires id <= Run(events).last
    ensures Asked(Step(Run(events), e).log, id) == Asked(Run(events).log, id)
  {
    var s := Run(events);
    match e
    case WisRequest(fd, src, forward, asked, now) =>
      AfterNote(s.log, if forward then Forwarded(s.last + 1, asked) else Refused(0, fd, src), id);
    case WisReply(b, flag) =>
      AfterNote(s.log, Replied(b, flag), id);
      if b in s.wis {
        var w := s.wis[b];
        AfterNote(s.log + [Replied(b, flag)], Answered(b, w.fd, w.src, flag), id);
      }
  }

  /** A reply that says "not found" before the last is not passed on. */
  lemma OthersAreAwaited(events: seq<Event>, i: nat, id: int)
    requires IsRequest(events, i, id) && InTime(events, i) && !IsAnswered(Run(events).log, id)
    requires Replies(Run(events).log, id) + 1 < events[i].asked
    ensures Run(events + [WisReply(id, 1)]).log == Run(events).log + [Replied(id, 1)]
    ensures id in Run(events + [WisReply(id, 1)]).wis
  {
    assert (events + [WisReply(id, 1)])[..|events|] == events;
    StillWaiting(events, i, id);
    RunIsSafe(events);
    assert WaitingOk(Run(events), id);
    AskedIs(events, i, id);
  }

  /** A reply to anything else changes nothing. */
  lemma LateReplyIgnored(events: seq<Event>, id: int, flag: int)
    requires IsAnswered(Run(events).log, id) || forall i: nat :: IsRequest(events, i, id) ==> !InTime(events, i)
    ensures Run(events + [WisReply(id, flag)]) == Run(events)
  {
    assert (events + [WisReply(id, flag)])[..|events|] == events;
    RunIsSafe(events);
    RunIsAttributed(events);
    var s := Run(events);
    if id in s.wis {
      assert WaitingOk(s, id) && EntryIs(events, s, id);
      if IsAnswered(s.log, id) {
        var k :| 0 <= k < |s.log| && s.log[k].Answered? && s.log[k].id == id;
        CountsAnswer(s.log, k);
      }
    }
  }

  /** Who whispers to nobody, or to themselves, is told so at once. */
  lemma RefusalIsAnswered(events: seq<Event>, fd: int, src: string, asked: nat, now: int)
    ensures Run(events + [WisRequest(fd, src, false, asked, now)]).log == Run(events).log + [Refused(0, fd, src)]
    ensures Run(events + [WisRequest(fd, src, false, asked, now)]).wis == Run(events).wis
  {
    var e := WisRequest(fd, src, false, asked, now);
    assert (events + [e])[..|events|] == events;
  }
}

/** The room as it is written: one goroutine that updates its maps, its history array and the
    clients in place, visiting clients in any order. Each case of its loop does what the step
    function of RoomSpec says; `panicked` stands for a Go panic. */
module Rooms {
  import opened Collections
  import opened Clients
  import opened RoomSpec

  /** m[k]--, deleting at zero or below. */
  function Decremented(m: map<string, int>, k: string): map<string, int> {
    var n := (if k in m then m[k] else 0) - 1;
    if n <= 0 then m - {k} else m[k := n]
  }

  lemma DropOne(w: Counter, m: map<string, int>, c: Client)
    ensures Drop(w, m, {c}) == if KeyOf(w, c) == "" then m else Decremented(m, KeyOf(w, c))
  {
    forall k ensures |Holders(w, {c}, k)| == if k != "" && KeyOf(w, c) == k then 1 else 0 {
      OneHolder(w, c, k);
    }
  }

  /** Serving one more client, after `to` have been served. */
  lemma MissedOneMore(mail: map<Client, Mail>, to: set<Client>, c: Client, pace: Pace)
    ensures Missed(mail, to + {c}, pace)
         == Missed(mail, to, pace) + if At(mail, c).Drained(PaceOf(pace, c)).Full() then {c} else {}
  {
  }

  lemma SentOneMore(mail: map<Client, Mail>, to: set<Client>, c: Client, msg: Message, pace: Pace)
    requires to + {c} <= mail.Keys && c !in to
    ensures SentTo(mail, to + {c}, msg, pace)
         == SentTo(mail, to, msg, pace)[c := Tried(At(mail, c), msg, PaceOf(pace, c))]
    ensures c in SentTo(mail, to, msg, pace) && SentTo(mail, to, msg, pace)[c] == mail[c]
  {
  }

  lemma SentNobody(mail: map<Client, Mail>, msg: Message, pace: Pace)
    ensures SentTo(mail, {}, msg, pace) == mail && Missed(mail, {}, pace) == {}
  {
  }

  /** The part of a room that a broadcast changes. */
  datatype Crowd = Crowd(
    mail: map<Client, Mail>,
    clients: set<Client>,
    viewers: map<string, int>,
    presence: map<string, int>)

  /** One visit of the broadcast loop. */
  function Visited(w: Crowd, c: Client, msg: Message, k: nat): Crowd {
    var full := At(w.mail, c).Drained(k).Full();
    Crowd(w.mail[c := Tried(At(w.mail, c), msg, k)],
          if full then w.clients - {c} else w.clients,
          if full then Drop(ByViewer, w.viewers, {c}) else w.viewers,
          if full then Drop(ByUser, w.presence, {c}) else w.presence)
  }

  /** All visits of `done` together. */
  function VisitedAll(w: Crowd, done: set<Client>, msg: Message, pace: Pace): Crowd {
    var gone := Missed(w.mail, done, pace);
    Crowd(SentTo(w.mail, done, msg, pace), w.clients - gone,
          Drop(ByViewer, w.viewers, gone), Drop(ByUser, w.presence, gone))
  }

  /** The order of the visits does not matter: any next one extends the set of those done. */
  lemma VisitOneMore(w: Crowd, done: set<Client>, c: Client, msg: Message, pace: Pace)
    requires c in w.mail && done <= w.mail.Keys && c !in done
    ensures c in VisitedAll(w, done, msg, pace).mail && VisitedAll(w, done, msg, pace).mail[c] == w.mail[c]
    ensures c in w.clients ==> c in VisitedAll(w, done, msg, pace).clients
    ensures VisitedAll(w, done + {c}, msg, pace) == Visited(VisitedAll(w, done, msg, pace), c, msg, PaceOf(pace, c))
  {
    var gone := Missed(w.mail, done, pace);
    MissedOneMore(w.mail, done, c, pace);
    SentOneMore(w.mail, done, c, msg, pace);
    if w.mail[c].Drained(PaceOf(pace, c)).Full() {
      DropOneMore(ByViewer, w.viewers, gone, c);
      DropOneMore(ByUser, w.presence, gone, c);
      assert w.clients - (gone + {c}) == w.clients - gone - {c};
    } else {
      assert gone + {} == gone;
    }
  }

  /** The loop: visits in the given order. */
  ghost function VisitedInOrder(w: Crowd, order: seq<Client>, msg: Message, pace: Pace): Crowd {
    if order == [] then w
    else
      var n := |order| - 1;
      Visited(VisitedInOrder(w, order[..n], msg, pace), order[n], msg, PaceOf(pace, order[n]))
  }

  lemma VisitNobody(w: Crowd, msg: Message, pace: Pace)
    ensures VisitedAll(w, {}, msg, pace) == w
  {
    SentNobody(w.mail, msg, pace);
    DropNone(ByViewer, w.viewers);
    DropNone(ByUser, w.presence);
  }

  /** Any order of visiting comes to the same. */
  lemma {:induction false} OrderImmaterial(w: Crowd, order: seq<Client>, done: set<Client>, msg: Message, pace: Pace)
    requires EachOnce(order, done) && done <= w.mail.Keys
    ensures VisitedInOrder(w, order, msg, pace) == VisitedAll(w, done, msg, pace)
    decreases |order|
  {
    if order == [] {
      assert done == {};
      VisitNobody(w, msg, pace);
    } else {
      var n := |order| - 1;
      var c := order[n];
      assert order == order[..n] + [c];
      OrderImmaterial(w, order[..n], done - {c}, msg, pace);
      VisitOneMore(w, done - {c}, c, msg, pace);
      assert done - {c} + {c} == done;
    }
  }

  lemma VisitNext(w: Crowd, order: seq<Client>, c: Client, msg: Message, pace: Pace)
    ensures VisitedInOrder(w, order + [c], msg, pace)
         == Visited(VisitedInOrder(w, order, msg, pace), c, msg, PaceOf(pace, c))
  {
    assert (order + [c])[..|order|] == order;
  }

  lemma VisitNone(w: Crowd, msg: Message, pace: Pace)
    ensures VisitedInOrder(w, [], msg, pace) == w
  {
  }

  /** Who has not been visited is as before. */
  lemma {:induction false} NotVisitedYet(w: Crowd, order: seq<Client>, c: Client, msg: Message, pace: Pace)
    requires c !in order && c in w.clients && w.clients <= w.mail.Keys
    ensures var v := VisitedInOrder(w, order, msg, pace); c in v.clients && c in v.mail && v.mail[c] == w.mail[c]
  {
    if order != [] { NotVisitedYet(w, order[..|order| - 1], c, msg, pace); }
  }

  lemma OnceMore(order: seq<Client>, done: set<Client>, c: Client)
    requires EachOnce(order, done) && c !in done
    ensures c !in order && EachOnce(order + [c], done + {c})
  {
  }

  /** The part that it does not change. */
  datatype Rest = Rest(
    stopped: bool,
    history: seq<Message>,
    published: int,
    welcomes: map<Client, Welcome>,
    counted: set<string>)

  /** The room state put together from the two parts and its records. */
  function Whole(w: Crowd, r: Rest, broadcasts: seq<Message>, vanished: multiset<string>): State {
    State(r.stopped, w.clients, r.history, w.presence, w.viewers, r.published, w.mail,
          broadcasts, r.welcomes, vanished, r.counted)
  }

  /** A broadcast is the visits in any order, and its record. */
  lemma DispatchInOrder(w: Crowd, r: Rest, broadcasts: seq<Message>, vanished: multiset<string>,
                        order: seq<Client>, msg: Message, pace: Pace)
    requires !SomeClosed(w.mail, w.clients) && EachOnce(order, w.clients) && w.clients <= w.mail.Keys
    ensures var v := VisitedInOrder(w, order, msg, pace);
            Dispatch(Whole(w, r, broadcasts, vanished), msg, pace)
            == Some(Whole(v, r, broadcasts + [msg], vanished + multiset(w.presence.Keys - v.presence.Keys)))
  {
    OrderImmaterial(w, order, w.clients, msg, pace);
  }

  lemma DispatchPanics(w: Crowd, r: Rest, broadcasts: seq<Message>, vanished: multiset<string>,
                       msg: Message, pace: Pace)
    requires SomeClosed(w.mail, w.clients)
    ensures Dispatch(Whole(w, r, broadcasts, vanished), msg, pace).None?
  {
  }

  // ---------------------------------------------------------------- clients heard of first

  /** Hearing of a client before its join or leave makes no difference to that step. */
  lemma JoinOfNewcomer(s: State, c: Client, backlogPace: seq<nat>, pace1: Pace, pace2: Pace)
    ensures JoinStep(s.(mail := s.mail[c := At(s.mail, c)]), c, backlogPace, pace1, pace2)
         == JoinStep(s, c, backlogPace, pace1, pace2)
  {
    hide Enter;
    var t := s.(mail := s.mail[c := At(s.mail, c)]);
    var m := Backlog(At(s.mail, c), s.history, backlogPace).0;
    assert t.mail[c := m] == s.mail[c := m];
    assert Register(t, c, m) == Register(s, c, m);
    assert t.mail[c := m.(outClosed := true)] == s.mail[c := m.(outClosed := true)];
  }

  lemma LeaveOfNewcomer(s: State, c: Client, pace1: Pace, pace2: Pace)
    requires c in s.mail || !At(s.mail, c).closed
    ensures LeaveStep(s.(mail := s.mail[c := At(s.mail, c)]), c, pace1, pace2) == LeaveStep(s, c, pace1, pace2)
  {
    hide Exit;
    var t := s.(mail := s.mail[c := At(s.mail, c)]);
    if c in s.mail {
      assert t.mail == s.mail;
    } else {
      assert Removed(t, {c}).mail == Removed(s, {c}).mail;
    }
  }

  /** The queued backlog is part of the registration or rejection that follows. */
  lemma BacklogFirst(s: State, c: Client, m: Mail)
    ensures Register(s.(mail := s.mail[c := m]), c, m) == Register(s, c, m)
    ensures Reject(s.(mail := s.mail[c := m]), c, m) == Reject(s, c, m)
  {
    assert s.mail[c := m][c := m] == s.mail[c := m];
    assert s.mail[c := m][c := m.(outClosed := true)] == s.mail[c := m.(outClosed := true)];
  }

  lemma BacklogSplit(m: Mail, history: seq<Message>, pace: seq<nat>)
    requires history != []
    ensures var k := if pace == [] then 0 else pace[0];
            var d := m.Drained(k);
            Backlog(m, history, pace)
            == if d.Full() then (d, false)
               else Backlog(d.(log := d.log + [history[0]]), history[1..], if pace == [] then [] else pace[1..])
  {
  }

  // ---------------------------------------------------------------- removals

  lemma RemovedOne(s: State, c: Client)
    requires c in s.mail
    ensures Removed(s, {c}) == s.(clients := s.clients - {c}, mail := s.mail[c := Shut(s.mail[c])],
                                  viewers := Drop(ByViewer, s.viewers, {c}), presence := Drop(ByUser, s.presence, {c}))
  {
    assert Removed(s, {c}).mail == s.mail[c := Shut(s.mail[c])];
  }

  /** Removal after removal, in any order, is removal of all. */
  lemma RemovedOneMore(s: State, done: set<Client>, c: Client)
    requires c in s.mail && c !in done
    ensures Removed(Removed(s, done), {c}) == Removed(s, done + {c})
    ensures c in Removed(s, done).mail && Removed(s, done).mail[c] == s.mail[c]
  {
    DropOneMore(ByViewer, s.viewers, done, c);
    DropOneMore(ByUser, s.presence, done, c);
    assert s.clients - done - {c} == s.clients - (done + {c});
    assert Removed(Removed(s, done), {c}).mail == Removed(s, done + {c}).mail;
  }

  lemma RemovedNone(s: State)
    ensures Removed(s, {}) == s
  {
    DropNone(ByViewer, s.viewers);
    DropNone(ByUser, s.presence);
    assert Removed(s, {}).mail == s.mail;
  }

  lemma OneLess(s: State, rest: set<Client>, c: Client)
    requires c in rest && rest <= s.clients && c in s.mail
    ensures StillOpen(s) - (rest - {c}) == if s.mail[c].closed then StillOpen(s) - rest else StillOpen(s) - rest + {c}
    ensures c in StillOpen(s) <==> !s.mail[c].closed
  {
  }

  class Room {
    var clients: set<Client>
    const history: array<Message>
    var len: nat
    var userPresence: map<string, int>
    var viewerCounts: map<string, int>
    var viewerCount: int
    var stopped: bool
    ghost var known: set<Client>   // every client the room has heard of
    ghost var broadcasts: seq<Message>
    ghost var welcomes: map<Client, Welcome>
    ghost var vanished: multiset<string>
    ghost var counted: set<string>

    ghost predicate Valid()
      reads this`known, this`clients, this`len, known
    {
      && history.Length == HISTORY_SIZE && len <= HISTORY_SIZE
      && clients <= known
      && forall c :: c in known ==> c.Box().Wf()
    }

    ghost function Mails(): map<Client, Mail>
      reads this`known, known
    {
      map c | c in known :: c.Box()
    }

    ghost function Recent(): seq<Message>
      requires len <= history.Length
      reads this`len, history
    {
      history[..len]
    }

    /** The part of this room that a broadcast changes. */
    ghost function Here(): Crowd
      reads this`known, this`clients, this`viewerCounts, this`userPresence, known
    {
      Crowd(Mails(), clients, viewerCounts, userPresence)
    }

    /** The part that it does not. */
    ghost function Else(): Rest
      requires len <= history.Length
      reads this`stopped, this`len, this`viewerCount, this`welcomes, this`counted, history
    {
      Rest(stopped, Recent(), viewerCount, welcomes, counted)
    }

    ghost function Abs(): State
      requires Valid()
      reads this, history, known
    {
      Whole(Here(), Else(), broadcasts, vanished)
    }

    constructor ()
      ensures Valid() && Abs() == INIT && fresh(history)
    {
      clients, len, userPresence, viewerCounts, viewerCount, stopped := {}, 0, map[], map[], 0, false;
      history := new Message[HISTORY_SIZE](_ => Viewers(0));
      known, broadcasts, welcomes, vanished, counted := {}, [], map[], multiset{}, {};
    }

    /** A client the room has not heard of is a new one. */
    ghost predicate Meets(c: Client)
      reads this, c
    {
      c in known || c.Box() == NEW_MAIL
    }

    // -------------------------------------------------------------- helpers of the loop

    /** The history slides in place: the copy of history[1..] onto itself, then the append. */
    method AppendHistory(m: Message)
      requires Valid()
      modifies history, this`len
      ensures Valid() && Abs() == old(Abs()).(history := Appended(old(Abs()).history, m))
    {
      if len == HISTORY_SIZE {
        for i := 0 to len - 1
          invariant len == HISTORY_SIZE
          invariant forall j :: 0 <= j < len ==> history[j] == old(history[if j < i then j + 1 else j])
        {
          history[i] := history[i + 1];
        }
        len := len - 1;
      }
      history[len] := m;
      len := len + 1;
      assert history[..len] == Appended(old(Abs()).history, m);
    }

    method PublishCount()
      requires Valid()
      modifies this`viewerCount, this`counted
      ensures Valid() && Abs() == Publish(old(Abs()))
    {
      viewerCount := |viewerCounts|;
      counted := viewerCounts.Keys;
    }

    /** The counters' part of removeClient. */
    method Uncount(c: Client) returns (wasLastPresence: bool, viewerChanged: bool)
      modifies this`viewerCounts, this`userPresence
      ensures viewerCounts == Drop(ByViewer, old(viewerCounts), {c})
      ensures userPresence == Drop(ByUser, old(userPresence), {c})
      ensures wasLastPresence <==> Last(userPresence, c.username)
      ensures viewerChanged <==> Last(viewerCounts, c.ViewerKey())
    {
      DropOne(ByViewer, viewerCounts, c);
      DropOne(ByUser, userPresence, c);
      wasLastPresence, viewerChanged := false, false;
      var vk := c.ViewerKey();
      if vk != "" {
        viewerCounts := Decremented(viewerCounts, vk);
        viewerChanged := vk !in viewerCounts;
      }
      if c.username != "" {
        userPresence := Decremented(userPresence, c.username);
        wasLastPresence := c.username !in userPresence;
      }
    }

    method RemoveClient(c: Client) returns (panicked: bool, wasLastPresence: bool, viewerChanged: bool)
      requires Valid() && c in known
      modifies this`clients, this`viewerCounts, this`userPresence, c`closed, c`outClosed
      ensures panicked <==> !old(c.closed) && old(c.outClosed)
      ensures !panicked ==> Valid()
      ensures old(c.closed) ==>
                && !wasLastPresence && !viewerChanged && c.Box() == old(c.Box()) && clients == old(clients)
                && viewerCounts == old(viewerCounts) && userPresence == old(userPresence)
      ensures !panicked && !old(c.closed) ==>
                && c.Box() == Shut(old(c.Box())) && clients == old(clients) - {c}
                && viewerCounts == Drop(ByViewer, old(viewerCounts), {c})
                && userPresence == Drop(ByUser, old(userPresence), {c})
                && (wasLastPresence <==> Last(userPresence, c.username))
                && (viewerChanged <==> Last(viewerCounts, c.ViewerKey()))
    {
      if c.closed {
        return false, false, false;
      }
      c.closed := true;
      clients := clients - {c};
      if c.outClosed {
        return true, false, false;  // close of a closed channel
      }
      c.outClosed := true;
      panicked := false;
      wasLastPresence, viewerChanged := Uncount(c);
    }

    /** The writer may have received something before the room tries to send. */
    method Try(c: Client, m: Message, k: nat) returns (panicked: bool)
      requires Valid() && c in clients
      modifies this`clients, this`viewerCounts, this`userPresence, c`taken, c`log, c`closed, c`outClosed
      ensures panicked <==> old(c.outClosed)
      ensures !panicked ==> Valid() && Here() == Visited(old(Here()), c, m, k)
    {
      ghost var mail := Mails();
      c.Drain(k);
      if c.outClosed {
        return true;  // send on a closed channel
      }
      panicked := false;
      var ok := c.TrySend(m);
      if !ok {
        var dead, _, _ := RemoveClient(c);
        panicked := dead;
      }
      MapSet(mail, Mails(), c, Tried(mail[c], m, k));
    }

    /** The body of the loop, after the visits in `order`. */
    method Visit(c: Client, m: Message, pace: Pace, ghost w: Crowd, ghost order: seq<Client>) returns (panicked: bool)
      requires Valid() && c in w.clients && c !in order && w.clients <= w.mail.Keys
      requires Here() == VisitedInOrder(w, order, m, pace)
      modifies this`clients, this`viewerCounts, this`userPresence, c`taken, c`log, c`closed, c`outClosed
      ensures panicked <==> w.mail[c].outClosed
      ensures !panicked ==> Valid() && Here() == VisitedInOrder(w, order + [c], m, pace)
    {
      NotVisitedYet(w, order, c, m, pace);
      VisitNext(w, order, c, m, pace);
      assert Mails()[c] == c.Box();
      panicked := Try(c, m, PaceOf(pace, c));
    }

    /** The loop of dispatch, in any order. */
    method TryAll(m: Message, pace: Pace) returns (panicked: bool, ghost order: seq<Client>)
      requires Valid()
      modifies this`clients, this`viewerCounts, this`userPresence, known
      ensures panicked <==> SomeClosed(old(Mails()), old(clients))
      ensures !panicked ==>
                && Valid() && EachOnce(order, old(clients))
                && Here() == VisitedInOrder(old(Here()), order, m, pace)
    {
      hide VisitedInOrder;
      ghost var w, done := Here(), {};
      var rest := clients;
      panicked, order := false, [];
      VisitNone(w, m, pace);
      while rest != {}
        invariant Valid() && known == old(known)
        invariant done <= w.clients && rest == w.clients - done && EachOnce(order, done)
        invariant forall c :: c in done ==> !w.mail[c].outClosed
        invariant Here() == VisitedInOrder(w, order, m, pace)
      {
        var c :| c in rest;
        OnceMore(order, done, c);
        panicked := Visit(c, m, pace, w, order);
        if panicked {
          return;
        }
        rest, done, order := rest - {c}, done + {c}, order + [c];
      }
      assert done == w.clients;
    }

    /** Records a broadcast made to the crowd `was`. */
    ghost method Note(m: Message, was: Crowd)
      requires Valid()
      modifies this`broadcasts, this`vanished
      ensures Valid() && Abs() == Whole(old(Here()), old(Else()), old(broadcasts) + [m],
                                        old(vanished) + multiset(was.presence.Keys - old(Here()).presence.Keys))
    {
      broadcasts := broadcasts + [m];
      vanished := vanished + multiset(was.presence.Keys - userPresence.Keys);
    }

    method DispatchAll(m: Message, pace: Pace) returns (panicked: bool)
      requires Valid()
      modifies this`clients, this`viewerCounts, this`userPresence, this`broadcasts, this`vanished, known
      ensures panicked <==> Dispatch(old(Abs()), m, pace).None?
      ensures !panicked ==> Valid() && Abs() == Dispatch(old(Abs()), m, pace).value
      ensures known == old(known)
    {
      hide Dispatch;
      hide VisitedInOrder;
      hide SomeClosed;
      hide EachOnce;
      ghost var w, other, order := Here(), Else(), [];
      panicked, order := TryAll(m, pace);
      if panicked {
        DispatchPanics(w, other, broadcasts, vanished, m, pace);
      } else {
        DispatchInOrder(w, other, broadcasts, vanished, order, m, pace);
        Note(m, w);
      }
    }

    // -------------------------------------------------------------- the cases of the loop

    ghost method Meet(c: Client)
      requires Valid() && Meets(c)
      modifies this`known
      ensures Valid() && c in known
      ensures known == old(known) + {c} && Else() == old(Else())
      ensures Abs() == old(Abs()).(mail := old(Abs()).mail[c := At(old(Abs()).mail, c)])
    {
      ghost var was := Mails();
      known := known + {c};
      assert Mails() == was[c := At(was, c)];
    }

    /** The environment: the writer of a client receives up to `k` messages. */
    method Receive(c: Client, k: nat)
      requires Valid() && Meets(c)
      modifies this`known, c`taken
      ensures Valid() && Some(Abs()) == Step(old(Abs()), RoomSpec.Receive(c, k))
    {
      ghost var before, other := Mails(), Else();
      Meet(c);
      ghost var mail := Mails();
      c.Drain(k);
      MapSet(mail, Mails(), c, c.Box());
      assert mail == before[c := At(before, c)];
      assert Mails() == before[c := c.Box()];
      assert c.Box() == At(before, c).Drained(k) && Else() == other;
    }

    /** Sends the history to a joiner until its queue is full. */
    method QueueBacklog(c: Client, pace: seq<nat>) returns (panicked: bool, overflow: bool)
      requires Valid() && c in known
      modifies c`taken, c`log
      ensures Valid()
      ensures panicked <==> c.outClosed && len > 0
      ensures !panicked ==> (c.Box(), !overflow) == Backlog(old(c.Box()), Recent(), pace)
    {
      var left := pace;
      ghost var goal := Backlog(c.Box(), Recent(), pace);
      assert Recent()[0..] == Recent();
      for i := 0 to len
        invariant Valid() && c.outClosed == old(c.outClosed) && c.closed == old(c.closed)
        invariant c.outClosed ==> i == 0
        invariant goal == Backlog(c.Box(), Recent()[i..], left)
      {
        BacklogSplit(c.Box(), Recent()[i..], left);
        assert Recent()[i..][1..] == Recent()[i + 1..];
        c.Drain(if left == [] then 0 else left[0]);
        if c.outClosed {
          return true, false;  // send on a closed channel
        }
        var ok := c.TrySend(history[i]);
        if !ok {
          return false, true;
        }
        left := if left == [] then [] else left[1..];
      }
      return false, false;
    }

    method SendBacklog(c: Client, pace: seq<nat>) returns (panicked: bool, overflow: bool)
      requires Valid() && c in known
      modifies c`taken, c`log
      ensures Valid()
      ensures panicked <==> old(c.outClosed) && Recent() != []
      ensures !panicked ==> (c.Box(), !overflow) == Backlog(old(c.Box()), Recent(), pace)
      ensures Abs() == old(Abs()).(mail := old(Mails())[c := c.Box()])
    {
      hide Backlog;
      ghost var mail, other := Mails(), Else();
      panicked, overflow := QueueBacklog(c, pace);
      MapSet(mail, Mails(), c, c.Box());
      assert Else() == other;
    }

    /** The counters' part of a join. */
    method Count(c: Client) returns (viewerChanged: bool, announced: bool)
      modifies this`viewerCounts, this`userPresence
      ensures viewerCounts == Bump(ByViewer, old(viewerCounts), c)
      ensures userPresence == Bump(ByUser, old(userPresence), c)
      ensures viewerChanged == First(viewerCounts, c.ViewerKey()) && announced == First(userPresence, c.username)
    {
      viewerChanged, announced := false, false;
      var vk := c.ViewerKey();
      if vk != "" {
        viewerCounts := viewerCounts[vk := (if vk in viewerCounts then viewerCounts[vk] else 0) + 1];
        viewerChanged := viewerCounts[vk] == 1;
      }
      if c.username != "" {
        var n := if c.username in userPresence then userPresence[c.username] else 0;
        userPresence := userPresence[c.username := n + 1];
        announced := userPresence[c.username] == 1;
      }
    }

    method RegisterClient(c: Client) returns (viewerChanged: bool, announced: bool)
      requires Valid() && c in known
      modifies this`clients, this`viewerCounts, this`userPresence, this`welcomes
      ensures Valid() && known == old(known)
      ensures Abs() == Register(old(Abs()), c, c.Box())
      ensures viewerChanged == First(viewerCounts, c.ViewerKey()) && announced == First(userPresence, c.username)
    {
      hide Bump;
      hide First;
      ghost var mail, recent := Mails(), Recent();
      assert mail == mail[c := c.Box()];
      clients := clients + {c};
      viewerChanged, announced := Count(c);
      welcomes := welcomes[c := Welcome(|broadcasts|, recent)];
      assert Mails() == mail && Recent() == recent;
    }

    method RejectClient(c: Client)
      requires Valid() && c in known
      modifies this`welcomes, c`outClosed
      ensures Valid() && Abs() == Reject(old(Abs()), c, old(c.Box()))
    {
      ghost var mail := Mails();
      c.outClosed := true;
      welcomes := welcomes[c := Welcome(|broadcasts|, Recent())];
      MapSet(mail, Mails(), c, c.Box());
    }

    /** Same-human reconnect: only the new tab is told, and only if its queue has room. */
    method GreetClient(c: Client, k: nat) returns (panicked: bool)
      requires Valid() && c in known
      modifies this`welcomes, c`taken, c`log
      ensures panicked <==> Greet(old(Abs()), c, k).None?
      ensures !panicked ==> Valid() && Abs() == Greet(old(Abs()), c, k).value
    {
      ghost var s := Abs();
      if c.outClosed {
        return true;  // send on a closed channel
      }
      panicked := false;
      c.Drain(k);
      var msg := Viewers(|viewerCounts|);
      var ok := c.TrySend(msg);
      if ok {
        ghost var w := if c in welcomes then welcomes[c] else Welcome(0, []);
        welcomes := welcomes[c := w.(opening := w.opening + [msg])];
      }
      MapSet(s.mail, Mails(), c, c.Box());
    }

    method RecountAll(pace: Pace) returns (panicked: bool)
      requires Valid()
      modifies this`clients, this`viewerCounts, this`userPresence, this`broadcasts, this`vanished
      modifies this`viewerCount, this`counted, known
      ensures panicked <==> Recount(old(Abs()), pace).None?
      ensures !panicked ==> Valid() && Abs() == Recount(old(Abs()), pace).value
      ensures known == old(known)
    {
      hide Dispatch;
      var n := |viewerCounts|;
      PublishCount();
      panicked := DispatchAll(Viewers(n), pace);
    }

    method EnterRoom(c: Client, viewerChanged: bool, announced: bool, pace1: Pace, pace2: Pace) returns (panicked: bool)
      requires Valid() && c in known
      requires viewerChanged == First(viewerCounts, c.ViewerKey()) && announced == First(userPresence, c.username)
      modifies this, known
      ensures panicked <==> Enter(old(Abs()), c, pace1, pace2).None?
      ensures !panicked ==> Valid() && Abs() == Enter(old(Abs()), c, pace1, pace2).value
    {
      hide Dispatch;
      hide Recount;
      hide Greet;
      if announced {
        panicked := DispatchAll(System(c.username + " joined"), pace1);
        if panicked {
          return;
        }
      }
      if viewerChanged {
        panicked := RecountAll(pace2);
      } else {
        panicked := GreetClient(c, PaceOf(pace2, c));
      }
    }

    method Join(c: Client, backlogPace: seq<nat>, pace1: Pace, pace2: Pace) returns (panicked: bool)
      requires Valid() && !stopped && Meets(c)
      modifies this, known, c
      ensures panicked <==> JoinStep(old(Abs()), c, backlogPace, pace1, pace2).None?
      ensures !panicked ==> Valid() && Abs() == JoinStep(old(Abs()), c, backlogPace, pace1, pace2).value
    {
      hide Enter;
      hide Backlog;
      JoinOfNewcomer(Abs(), c, backlogPace, pace1, pace2);
      Meet(c);
      ghost var s := Abs();
      var dead, overflow := SendBacklog(c, backlogPace);
      if dead {
        return true;
      }
      BacklogFirst(s, c, c.Box());
      panicked := false;
      if overflow {
        RejectClient(c);
      } else {
        var viewerChanged, announced := RegisterClient(c);
        panicked := EnterRoom(c, viewerChanged, announced, pace1, pace2);
      }
    }

    method ExitRoom(c: Client, wasLastPresence: bool, viewerChanged: bool, pace1: Pace, pace2: Pace)
      returns (panicked: bool)
      requires Valid()
      requires wasLastPresence == Last(userPresence, c.username) && viewerChanged == Last(viewerCounts, c.ViewerKey())
      modifies this, known
      ensures panicked <==> Exit(old(Abs()), c, pace1, pace2).None?
      ensures !panicked ==> Valid() && Abs() == Exit(old(Abs()), c, pace1, pace2).value
    {
      hide Dispatch;
      hide Recount;
      panicked := false;
      if wasLastPresence {
        panicked := DispatchAll(System(c.username + " left"), pace1);
        if panicked {
          return;
        }
      }
      if viewerChanged {
        panicked := RecountAll(pace2);
      }
    }

    /** removeClient, on the whole state. */
    method Depart(c: Client) returns (panicked: bool, changed: bool, wasLastPresence: bool, viewerChanged: bool)
      requires Valid() && c in known
      modifies this`clients, this`viewerCounts, this`userPresence, c`closed, c`outClosed
      ensures panicked <==> !old(c.closed) && old(c.outClosed)
      ensures changed == !old(c.closed) && (!changed ==> Valid() && Abs() == old(Abs()))
      ensures !panicked && changed ==>
                && Valid() && Abs() == Removed(old(Abs()), {c})
                && wasLastPresence == Last(userPresence, c.username)
                && viewerChanged == Last(viewerCounts, c.ViewerKey())
    {
      hide Drop;
      hide Removed;
      ghost var mail, other := Mails(), Else();
      RemovedOne(Abs(), c);
      changed := !c.closed;
      panicked, wasLastPresence, viewerChanged := RemoveClient(c);
      if !panicked {
        MapSet(mail, Mails(), c, c.Box());
        assert Else() == other;
      }
    }

    /** `idle` is the call of onEmpty. */
    method Leave(c: Client, pace1: Pace, pace2: Pace) returns (panicked: bool, idle: bool)
      requires Valid() && !stopped && Meets(c)
      modifies this, known, c
      ensures panicked <==> LeaveStep(old(Abs()), c, pace1, pace2).None?
      ensures !panicked ==> Valid() && Abs() == LeaveStep(old(Abs()), c, pace1, pace2).value
      ensures !panicked ==> (idle <==> clients == {})
    {
      hide Exit;
      idle := false;
      LeaveOfNewcomer(Abs(), c, pace1, pace2);
      Meet(c);
      ghost var s := Abs();
      assert s.mail[c] == c.Box();
      var dead, changed, wasLastPresence, viewerChanged := Depart(c);
      if dead {
        return true, false;
      }
      panicked := false;
      if changed {
        panicked := ExitRoom(c, wasLastPresence, viewerChanged, pace1, pace2);
      }
      idle := clients == {};
    }

    method Send(id: nat, user: string, body: string, pace: Pace) returns (panicked: bool)
      requires Valid() && !stopped
      modifies this, history, known
      ensures panicked <==> SendStep(old(Abs()), Chat(id, user, body), pace).None?
      ensures !panicked ==> Valid() && Abs() == SendStep(old(Abs()), Chat(id, user, body), pace).value
    {
      hide Dispatch;
      var m := Chat(id, user, body);
      AppendHistory(m);
      panicked := DispatchAll(m, pace);
    }

    /** The stop loop on its way from state `s`, with `rest` still to be visited. */
    ghost predicate Removing(s: State, rest: set<Client>)
      reads this, history, known
    {
      && Valid() && known == s.mail.Keys && rest <= s.clients <= s.mail.Keys
      && !SomeClosed(s.mail, StillOpen(s) - rest) && Abs() == Removed(s, StillOpen(s) - rest)
      && forall c :: c in rest ==> c.Box() == s.mail[c]
    }

    method RemoveNext(ghost s: State, ghost rest: set<Client>, c: Client) returns (panicked: bool)
      requires Removing(s, rest) && c in rest
      modifies this`clients, this`viewerCounts, this`userPresence, c`closed, c`outClosed
      ensures panicked ==> SomeClosed(s.mail, StillOpen(s))
      ensures !panicked ==> Removing(s, rest - {c})
    {
      hide Removed;
      hide StillOpen;
      RemovedOneMore(s, StillOpen(s) - rest, c);
      OneLess(s, rest, c);
      var dead, changed, _, _ := Depart(c);
      panicked := dead;
    }

    /** The loop of the stop case, in any order; what removeClient returns is ignored. */
    method RemoveAll() returns (panicked: bool)
      requires Valid()
      modifies this`clients, this`viewerCounts, this`userPresence, known
      ensures panicked <==> SomeClosed(old(Mails()), StillOpen(old(Abs())))
      ensures !panicked ==> Valid() && Abs() == Removed(old(Abs()), StillOpen(old(Abs())))
    {
      ghost var s := Abs();
      var rest := clients;
      RemovedNone(s);
      assert StillOpen(s) - rest == {};
      hide Removed;
      hide Valid;
      while rest != {}
        invariant Removing(s, rest) && known == old(known)
      {
        var c :| c in rest;
        panicked := RemoveNext(s, rest, c);
        if panicked {
          return;
        }
        rest := rest - {c};
      }
      assert StillOpen(s) - {} == StillOpen(s);
      panicked := false;
    }

    /** Leaving the loop. */
    method NoteStop(ghost names: map<string, int>)
      requires Valid()
      modifies this`stopped, this`vanished
      ensures Valid()
      ensures Abs() == old(Abs()).(stopped := true,
                                   vanished := old(vanished) + multiset(names.Keys - userPresence.Keys))
    {
      stopped := true;
      vanished := vanished + multiset(names.Keys - userPresence.Keys);
    }

    method Stop() returns (panicked: bool)
      requires Valid() && !stopped
      modifies this, known
      ensures panicked <==> StopStep(old(Abs())).None?
      ensures !panicked ==> Valid() && Abs() == StopStep(old(Abs())).value
    {
      hide Removed;
      hide StillOpen;
      hide SomeClosed;
      ghost var names := userPresence;
      panicked := RemoveAll();
      if !panicked {
        NoteStop(names);
      }
    }
  }
}

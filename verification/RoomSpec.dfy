/** One chat room as a deterministic step function. What the scheduler decides (how many
    messages each writer has received before the room tries to send to it) is an input of
    each step, and the order in which a broadcast visits the clients is immaterial. */
module RoomSpec {
  import opened Collections
  import opened Clients

  /** How many messages the writer of each client receives before the next attempt on it. */
  type Pace = map<Client, nat>

  function PaceOf(p: Pace, c: Client): nat {
    if c in p then p[c] else 0
  }

  datatype Event =
    | Join(c: Client, backlogPace: seq<nat>, pace1: Pace, pace2: Pace)
    | Leave(c: Client, pace1: Pace, pace2: Pace)
    | Send(id: nat, user: string, body: string, pace: Pace)
    | Stop
    | Receive(c: Client, k: nat)

  /** History of a client's join: the broadcasts made before it, and what it was sent first. */
  datatype Welcome = Welcome(start: nat, opening: seq<Message>)

  /** `broadcasts`, `welcomes`, `vanished` (usernames whose last connection was evicted or
      stopped) and `counted` (the keys at the last publish) only record history. */
  datatype State = State(
    stopped: bool,
    clients: set<Client>,
    history: seq<Message>,
    presence: map<string, int>,
    viewers: map<string, int>,
    published: int,
    mail: map<Client, Mail>,
    broadcasts: seq<Message>,
    welcomes: map<Client, Welcome>,
    vanished: multiset<string>,
    counted: set<string>)

  const INIT := State(false, {}, [], map[], map[], 0, map[], [], map[], multiset{}, {})

  function At(mail: map<Client, Mail>, c: Client): Mail {
    if c in mail then mail[c] else NEW_MAIL
  }

  function Joined(user: string): Message { System(user + " joined") }

  function Left(user: string): Message { System(user + " left") }

  /** The sliding window of the last HISTORY_SIZE messages. */
  function Appended(history: seq<Message>, m: Message): seq<Message> {
    (if |history| == HISTORY_SIZE then history[1..] else history) + [m]
  }

  function Shut(m: Mail): Mail {
    m.(outClosed := true, closed := true)
  }

  // ---------------------------------------------------------------- broadcast

  /** What one attempt does to a client: the message is queued, or a full queue evicts. */
  function Tried(m: Mail, msg: Message, k: nat): Mail {
    var d := m.Drained(k);
    if d.Full() then Shut(d) else d.(log := d.log + [msg])
  }

  function SentTo(mail: map<Client, Mail>, to: set<Client>, msg: Message, pace: Pace): map<Client, Mail> {
    map c | c in mail.Keys + to :: if c in to then Tried(At(mail, c), msg, PaceOf(pace, c)) else mail[c]
  }

  /** The clients whose queue is full when the room tries them. */
  function Missed(mail: map<Client, Mail>, to: set<Client>, pace: Pace): set<Client> {
    set c | c in to && At(mail, c).Drained(PaceOf(pace, c)).Full()
  }

  predicate SomeClosed(mail: map<Client, Mail>, to: set<Client>) {
    exists c :: c in to && At(mail, c).outClosed
  }

  /** The broadcast restricted to the clients `to`. */
  function Served(s: State, to: set<Client>, msg: Message, pace: Pace): State {
    var gone := Missed(s.mail, to, pace);
    s.(mail := SentTo(s.mail, to, msg, pace),
       clients := s.clients - gone,
       viewers := Drop(ByViewer, s.viewers, gone),
       presence := Drop(ByUser, s.presence, gone))
  }

  /** A closed queue among the clients makes the send panic. */
  function Dispatch(s: State, msg: Message, pace: Pace): Option<State> {
    if SomeClosed(s.mail, s.clients) then None
    else
      var t := Served(s, s.clients, msg, pace);
      Some(t.(broadcasts := s.broadcasts + [msg],
              vanished := s.vanished + multiset(s.presence.Keys - t.presence.Keys)))
  }

  function Publish(s: State): State {
    s.(published := |s.viewers|, counted := s.viewers.Keys)
  }

  // ---------------------------------------------------------------- the cases of the loop

  /** Sends the backlog until it is through or the queue is full. */
  function Backlog(m: Mail, history: seq<Message>, pace: seq<nat>): (Mail, bool)
    decreases |history|
  {
    if history == [] then (m, true)
    else
      var d := m.Drained(if pace == [] then 0 else pace[0]);
      if d.Full() then (d, false)
      else Backlog(d.(log := d.log + [history[0]]), history[1..], if pace == [] then [] else pace[1..])
  }

  function Register(s: State, c: Client, m: Mail): State {
    s.(clients := s.clients + {c},
       mail := s.mail[c := m],
       viewers := Bump(ByViewer, s.viewers, c),
       presence := Bump(ByUser, s.presence, c),
       welcomes := s.welcomes[c := Welcome(|s.broadcasts|, s.history)])
  }

  /** Same-human reconnect: only the new tab is told the count, and only if it has room. */
  function Greet(s: State, c: Client, k: nat): Option<State> {
    var m := At(s.mail, c);
    if m.outClosed then None
    else
      var d := m.Drained(k);
      var msg := Viewers(|s.viewers|);
      if d.Full() then Some(s.(mail := s.mail[c := d]))
      else
        var w := if c in s.welcomes then s.welcomes[c] else Welcome(0, []);
        Some(s.(mail := s.mail[c := d.(log := d.log + [msg])],
                welcomes := s.welcomes[c := w.(opening := w.opening + [msg])]))
  }

  /** A broadcast that is made only in some cases. */
  function DispatchIf(s: State, cond: bool, msg: Message, pace: Pace): Option<State> {
    if cond then Dispatch(s, msg, pace) else Some(s)
  }

  function Recount(s: State, pace: Pace): Option<State> {
    Dispatch(Publish(s), Viewers(|s.viewers|), pace)
  }

  /** The client's key was just counted for the first time. */
  predicate First(counts: map<string, int>, k: string) {
    k != "" && k in counts && counts[k] == 1
  }

  /** The client's key was just counted for the last time. */
  predicate Last(counts: map<string, int>, k: string) {
    k != "" && k !in counts
  }

  /** A join after registration: announcement, then the new count or the greeting. */
  function Enter(s: State, c: Client, pace1: Pace, pace2: Pace): Option<State> {
    var s2 :- DispatchIf(s, First(s.presence, c.username), Joined(c.username), pace1);
    if First(s.viewers, c.ViewerKey()) then Recount(s2, pace2) else Greet(s2, c, PaceOf(pace2, c))
  }

  /** The queue could not even take the backlog: it is closed, and the client not registered. */
  function Reject(s: State, c: Client, m: Mail): State {
    s.(mail := s.mail[c := m.(outClosed := true)],
       welcomes := s.welcomes[c := Welcome(|s.broadcasts|, s.history)])
  }

  function JoinStep(s: State, c: Client, backlogPace: seq<nat>, pace1: Pace, pace2: Pace): Option<State> {
    var was := At(s.mail, c);
    var (m, fits) := Backlog(was, s.history, backlogPace);
    if was.outClosed && s.history != [] then None
    else if fits then Enter(Register(s, c, m), c, pace1, pace2)
    else Some(Reject(s, c, m))
  }

  function Removed(s: State, gone: set<Client>): State {
    s.(clients := s.clients - gone,
       mail := map c | c in s.mail.Keys + gone :: if c in gone then Shut(At(s.mail, c)) else s.mail[c],
       viewers := Drop(ByViewer, s.viewers, gone),
       presence := Drop(ByUser, s.presence, gone))
  }

  /** A leave after removal: announcement, then the new count. */
  function Exit(s: State, c: Client, pace1: Pace, pace2: Pace): Option<State> {
    var s2 :- DispatchIf(s, Last(s.presence, c.username), Left(c.username), pace1);
    if Last(s.viewers, c.ViewerKey()) then Recount(s2, pace2) else Some(s2)
  }

  /** removeClient returns early for a closed client, and close(c.out) panics on a closed queue. */
  function LeaveStep(s: State, c: Client, pace1: Pace, pace2: Pace): Option<State> {
    var m := At(s.mail, c);
    if m.closed then Some(s)
    else if m.outClosed then None
    else Exit(Removed(s, {c}), c, pace1, pace2)
  }

  function SendStep(s: State, m: Message, pace: Pace): Option<State> {
    Dispatch(s.(history := Appended(s.history, m)), m, pace)
  }

  function StillOpen(s: State): set<Client> {
    set c | c in s.clients && !At(s.mail, c).closed
  }

  /** The loop removes every client; a closed one is skipped, and a closed queue panics. */
  function StopStep(s: State): Option<State> {
    var open := StillOpen(s);
    if SomeClosed(s.mail, open) then None
    else
      var t := Removed(s, open);
      Some(t.(stopped := true, vanished := s.vanished + multiset(s.presence.Keys - t.presence.Keys)))
  }

  /** One case of the select loop, or one receive by a writer. None is a Go panic. A stopped
      room has left its loop: only writers go on. */
  function Step(s: State, e: Event): Option<State> {
    if e.Receive? then Some(s.(mail := s.mail[e.c := At(s.mail, e.c).Drained(e.k)]))
    else if s.stopped then Some(s)
    else
      match e
      case Join(c, backlogPace, pace1, pace2) => JoinStep(s, c, backlogPace, pace1, pace2)
      case Leave(c, pace1, pace2) => LeaveStep(s, c, pace1, pace2)
      case Send(id, user, body, pace) => SendStep(s, Chat(id, user, body), pace)
      case _ => StopStep(s)
  }

  function Run(s: State, es: seq<Event>): Option<State> {
    if es == [] then Some(s)
    else
      var t :- Run(s, es[..|es| - 1]);
      Step(t, es[|es| - 1])
  }
}

/** Connected clients, their outbound queues, and the two counters a room keeps about them. */
module Clients {

  /** The outbound envelope; `kind` and the fields that go with it. */
  datatype Message = Chat(id: nat, user: string, body: string) | System(body: string) | Viewers(count: nat)

  const HISTORY_SIZE: nat := 50
  const CLIENT_SEND_BUFFER: nat := 32

  /** The mutable part of a client: `log` is everything ever put on c.out, of which the
      writer has received `taken`, so the queue is log[taken..]. */
  datatype Mail = Mail(log: seq<Message>, taken: nat, outClosed: bool, closed: bool) {
    ghost predicate Wf() {
      taken <= |log| && |log| - taken <= CLIENT_SEND_BUFFER && (closed ==> outClosed)
    }

    /** The writer receives up to `k` queued messages. */
    function Drained(k: nat): (m: Mail)
      ensures Wf() ==> m.Wf()
      ensures m.log == log && m.outClosed == outClosed && m.closed == closed
    {
      this.(taken := if taken + k <= |log| then taken + k else if taken <= |log| then |log| else taken)
    }

    predicate Full() {
      |log| - taken >= CLIENT_SEND_BUFFER
    }
  }

  const NEW_MAIL := Mail([], 0, false, false)

  class Client {
    const username: string   // "" for guests
    const anonKey: string
    var log: seq<Message>
    var taken: nat
    var outClosed: bool
    var closed: bool

    constructor (username: string, anonKey: string)
      ensures this.username == username && this.anonKey == anonKey && Box() == NEW_MAIL
    {
      this.username, this.anonKey := username, anonKey;
      log, taken, outClosed, closed := [], 0, false, false;
    }

    function Box(): Mail
      reads this
    {
      Mail(log, taken, outClosed, closed)
    }

    function ViewerKey(): string {
      if username != "" then "u:" + username
      else if anonKey != "" then "g:" + anonKey
      else ""
    }

    /** The environment: the writer goroutine receives up to `k` messages. */
    method Drain(k: nat)
      modifies this`taken
      ensures Box() == old(Box()).Drained(k)
    {
      if taken + k <= |log| {
        taken := taken + k;
      } else if taken <= |log| {
        taken := |log|;
      }
    }

    /** select { case c.out <- m: default: }, on a channel that is not closed. */
    method TrySend(m: Message) returns (ok: bool)
      requires !outClosed
      modifies this`log
      ensures ok == !old(Box()).Full()
      ensures ok <==> |old(log)| - taken < 32
      ensures Box() == if ok then old(Box()).(log := old(log) + [m]) else old(Box())
    {
      ok := |log| - taken < CLIENT_SEND_BUFFER;
      if ok {
        log := log + [m];
      }
    }
  }

  // ---------------------------------------------------------------- counters

  datatype Counter = ByViewer | ByUser

  function KeyOf(w: Counter, c: Client): string {
    if w.ByViewer? then c.ViewerKey() else c.username
  }

  /** The clients among `cs` that counter `w` counts under `k`; the empty key is not counted. */
  function Holders(w: Counter, cs: set<Client>, k: string): set<Client> {
    set c | c in cs && k != "" && KeyOf(w, c) == k
  }

  function Keys(w: Counter, cs: set<Client>): set<string> {
    set c | c in cs && KeyOf(w, c) != "" :: KeyOf(w, c)
  }

  /** The counter, recounted from scratch. */
  function Tally(w: Counter, cs: set<Client>): map<string, int> {
    map k | k in Keys(w, cs) :: |Holders(w, cs, k)|
  }

  /** m[k]++ for the key of one client. */
  function Bump(w: Counter, m: map<string, int>, c: Client): map<string, int> {
    var k := KeyOf(w, c);
    if k == "" then m else m[k := (if k in m then m[k] else 0) + 1]
  }

  /** m[k]--, deleting at zero or below, once for each of the clients in `gone`, in any order. */
  function Drop(w: Counter, m: map<string, int>, gone: set<Client>): map<string, int> {
    map k | k in m && (|Holders(w, gone, k)| == 0 || m[k] > |Holders(w, gone, k)|) :: m[k] - |Holders(w, gone, k)|
  }

  /** A key is in a tally exactly while somebody holds it. */
  lemma TallyKeys(w: Counter, cs: set<Client>, k: string)
    ensures k in Tally(w, cs) <==> exists c :: c in cs && KeyOf(w, c) == k && k != ""
    ensures k in Tally(w, cs) <==> Holders(w, cs, k) != {}
  {
    if k in Keys(w, cs) {
      var c :| c in cs && KeyOf(w, c) == k && k != "";
      assert c in Holders(w, cs, k);
    }
    if c :| c in Holders(w, cs, k) {
      assert KeyOf(w, c) in Keys(w, cs);
    }
  }

  lemma HoldersSplit(w: Counter, cs: set<Client>, gone: set<Client>, k: string)
    requires gone <= cs
    ensures |Holders(w, cs - gone, k)| == |Holders(w, cs, k)| - |Holders(w, gone, k)|
  {
    assert Holders(w, cs, k) == Holders(w, cs - gone, k) + Holders(w, gone, k);
    assert Holders(w, cs - gone, k) !! Holders(w, gone, k);
  }

  /** Decrementing for those who go is recounting those who stay. */
  lemma DropTally(w: Counter, cs: set<Client>, gone: set<Client>)
    requires gone <= cs
    ensures Drop(w, Tally(w, cs), gone) == Tally(w, cs - gone)
  {
    var was, now := Tally(w, cs), Tally(w, cs - gone);
    forall k
      ensures k in Drop(w, was, gone) <==> k in now
      ensures k in now ==> Drop(w, was, gone)[k] == now[k]
    {
      TallyKeys(w, cs, k);
      TallyKeys(w, cs - gone, k);
      HoldersSplit(w, cs, gone, k);
    }
  }

  lemma HoldersWith(w: Counter, cs: set<Client>, c: Client, k: string)
    requires c !in cs
    ensures |Holders(w, cs + {c}, k)| == |Holders(w, cs, k)| + if k != "" && KeyOf(w, c) == k then 1 else 0
  {
    if k != "" && KeyOf(w, c) == k {
      assert Holders(w, cs + {c}, k) == Holders(w, cs, k) + {c};
    } else {
      assert Holders(w, cs + {c}, k) == Holders(w, cs, k);
    }
  }

  /** Incrementing for a newcomer is recounting with the newcomer. */
  lemma BumpTally(w: Counter, cs: set<Client>, c: Client)
    requires c !in cs
    ensures Bump(w, Tally(w, cs), c) == Tally(w, cs + {c})
  {
    var was, now := Tally(w, cs), Tally(w, cs + {c});
    forall k
      ensures k in Bump(w, was, c) <==> k in now
      ensures k in now ==> Bump(w, was, c)[k] == now[k]
    {
      TallyKeys(w, cs, k);
      TallyKeys(w, cs + {c}, k);
      HoldersWith(w, cs, c, k);
    }
  }

  lemma OneHolder(w: Counter, c: Client, k: string)
    ensures |Holders(w, {c}, k)| == if k != "" && KeyOf(w, c) == k then 1 else 0
  {
    assert Holders(w, {c}, k) == if k != "" && KeyOf(w, c) == k then {c} else {};
  }

  /** Removals after others are removing them all. */
  lemma DropUnion(w: Counter, m: map<string, int>, gone: set<Client>, more: set<Client>)
    requires gone !! more
    ensures Drop(w, Drop(w, m, gone), more) == Drop(w, m, gone + more)
  {
    hide Holders;
    forall k
      ensures |Holders(w, gone + more, k)| == |Holders(w, gone, k)| + |Holders(w, more, k)|
    {
      HoldersSplit(w, gone + more, gone, k);
      assert gone + more - gone == more;
    }
  }

  /** One removal after others is removing them all: the order does not matter. */
  lemma DropOneMore(w: Counter, m: map<string, int>, gone: set<Client>, c: Client)
    requires c !in gone
    ensures Drop(w, Drop(w, m, gone), {c}) == Drop(w, m, gone + {c})
  {
    DropUnion(w, m, gone, {c});
  }

  lemma DropNone(w: Counter, m: map<string, int>)
    ensures Drop(w, m, {}) == m
  {
    assert forall k :: Holders(w, {}, k) == {};
  }

  // ---------------------------------------------------------------- viewers without their keys

  /** Who counts as a viewer: a user, or a guest with a cookie. */
  predicate Counts(c: Client) {
    c.username != "" || c.anonKey != ""
  }

  /** One viewer on two connections: the same user, or guests with the same cookie. */
  predicate SameViewer(c: Client, d: Client) {
    if c.username != "" || d.username != "" then c.username == d.username
    else c.anonKey == d.anonKey && c.anonKey != ""
  }

  lemma ViewerKeyOfUser(c: Client, u: string)
    requires u != ""
    ensures c.ViewerKey() == "u:" + u <==> c.username == u
  {
    assert ("u:" + u)[0] == 'u' && ("g:" + c.anonKey)[0] == 'g';
    assert ("u:" + u)[2..] == u && ("u:" + c.username)[2..] == c.username;
  }

  /** The key tells viewers apart: exactly the connections of one viewer share it. */
  lemma KeyIsViewer(c: Client, d: Client)
    ensures c.ViewerKey() != "" <==> Counts(c)
    ensures Counts(c) ==> (c.ViewerKey() == d.ViewerKey() <==> SameViewer(c, d))
  {
    if c.username != "" { ViewerKeyOfUser(d, c.username); }
    if d.username != "" { ViewerKeyOfUser(c, d.username); }
    if c.username == "" && d.username == "" {
      assert ("g:" + c.anonKey)[2..] == c.anonKey && ("g:" + d.anonKey)[2..] == d.anonKey;
    }
  }

  function Users(cs: set<Client>): set<string> {
    set c | c in cs && c.username != "" :: c.username
  }

  /** The cookies of guests. */
  function Cookies(cs: set<Client>): set<string> {
    set c | c in cs && c.username == "" && c.anonKey != "" :: c.anonKey
  }

  function Prefixed(p: string, xs: set<string>): set<string> {
    set x | x in xs :: p + x
  }

  lemma {:induction false} PrefixedSize(p: string, xs: set<string>)
    ensures |Prefixed(p, xs)| == |xs|
  {
    if xs == {} {
      assert Prefixed(p, xs) == {};
    } else {
      var x :| x in xs;
      PrefixedSize(p, xs - {x});
      forall y | y in xs && p + y == p + x ensures y == x { assert (p + y)[|p|..] == y && (p + x)[|p|..] == x; }
      assert Prefixed(p, xs) == Prefixed(p, xs - {x}) + {p + x};
    }
  }

  lemma KeyOrigin(cs: set<Client>, k: string)
    ensures k in Keys(ByViewer, cs) <==> k in Prefixed("u:", Users(cs)) || k in Prefixed("g:", Cookies(cs))
  {
    if c :| c in cs && KeyOf(ByViewer, c) == k && k != "" {
      if c.username != "" { assert c.username in Users(cs); } else { assert c.anonKey in Cookies(cs); }
    }
    if u :| u in Users(cs) && k == "u:" + u {
      var c :| c in cs && c.username == u && u != "";
      assert KeyOf(ByViewer, c) == k;
    }
    if g :| g in Cookies(cs) && k == "g:" + g {
      var c :| c in cs && c.username == "" && c.anonKey == g && g != "";
      assert KeyOf(ByViewer, c) == k;
    }
  }

  /** There are as many keys as users and cookies. */
  lemma KeysCount(cs: set<Client>)
    ensures |Keys(ByViewer, cs)| == |Users(cs)| + |Cookies(cs)|
  {
    var us, gs := Prefixed("u:", Users(cs)), Prefixed("g:", Cookies(cs));
    PrefixedSize("u:", Users(cs));
    PrefixedSize("g:", Cookies(cs));
    assert us !! gs by { assert forall k :: k in us ==> k[0] == 'u'; }
    forall k ensures k in Keys(ByViewer, cs) <==> k in us + gs { KeyOrigin(cs, k); }
    assert Keys(ByViewer, cs) == us + gs;
  }

  // ---------------------------------------------------------------- the two counters in lockstep

  /** A username and the viewer key made from it always have the same count, whatever
      happened to the counters. */
  ghost predicate Lockstep(viewers: map<string, int>, presence: map<string, int>) {
    forall u :: u != "" ==>
      (u in presence <==> "u:" + u in viewers) && (u in presence ==> presence[u] == viewers["u:" + u])
  }

  lemma LockstepBump(viewers: map<string, int>, presence: map<string, int>, c: Client)
    requires Lockstep(viewers, presence)
    ensures Lockstep(Bump(ByViewer, viewers, c), Bump(ByUser, presence, c))
  {
    forall u | u != ""
      ensures c.ViewerKey() == "u:" + u <==> c.username == u
    {
      ViewerKeyOfUser(c, u);
    }
  }

  lemma LockstepDrop(viewers: map<string, int>, presence: map<string, int>, gone: set<Client>)
    requires Lockstep(viewers, presence)
    ensures Lockstep(Drop(ByViewer, viewers, gone), Drop(ByUser, presence, gone))
  {
    forall u | u != ""
      ensures Holders(ByViewer, gone, "u:" + u) == Holders(ByUser, gone, u)
    {
      forall c | c in gone
        ensures c.ViewerKey() == "u:" + u <==> c.username == u
      {
        ViewerKeyOfUser(c, u);
      }
    }
  }
}

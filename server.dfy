/**
 * The server of src/server.rs: one reactor that owns the game, the connected
 * clients, the newcomers that have not said Hello yet, the bots, and two
 * queues — control messages that add and drop connections, and game updates
 * to broadcast. Each pass of its loop handles the polled events, moves the
 * bots, broadcasts the updates and then applies the control messages.
 *
 * Sockets are modelled by what they deliver and by the outcome of each send:
 * what a socket read produced is an `Incoming` value, which sends fail is a
 * parameter, and every send the server makes is appended to `sent`. Time is
 * a number of milliseconds passed in as `now`.
 */
module Server {
  import opened Wrappers
  import opened Game
  import opened Common

  // ---------------------------------------------------------------------------
  // Tokens, connections and control messages

  /** mio's Token: the number a socket is registered under. */
  datatype Token = Token(n: nat)

  /** The listening socket's token; clients and newcomers get the others. */
  const LISTENER_TOKEN: Token := Token(0)

  /** A client that has been welcomed into the game; its socket is not modelled. */
  datatype ClientObject = ClientObject(moniker: Moniker, lastMoveAt: nat)

  datatype Bot = Bot(moniker: Moniker, lastMoveAt: nat)

  /** The bots init_bots places, in order. */
  const BOT_MONIKERS: seq<Moniker> := [Moniker('0'), Moniker('1')]

  datatype ServerCtrlMsg =
    | DropNewcomerWithErr(tok: Token, err: Clientward)
    | DropClientWithErr(tok: Token, err: Clientward)
    | UpgradeClient(tok: Token, moniker: Moniker)

  /** How a read of a socket ended once its buffered messages were taken: no more data for now, or an error. */
  datatype ReadEnd = WouldBlock | Broken

  /** What one read of a socket delivers: the messages that decode, then how the read ended. */
  datatype Incoming = Incoming(msgs: seq<Serverward>, end: ReadEnd)

  /** A polled event: the socket's token, whether it is readable, and what reading it yields. */
  datatype Event = Event(tok: Token, readable: bool, input: Incoming)

  /** Instant::elapsed, in milliseconds: it saturates at zero rather than going negative. */
  function Elapsed(now: nat, since: nat): (r: nat)
    ensures since <= now ==> since + r == now
    ensures now <= since ==> r == 0
  {
    if now >= since then now - since else 0
  }

  /** The tokens of `ts` numbered `x` or more. */
  function TokensFrom(ts: set<Token>, x: nat): set<Token> {
    set t | t in ts && t.n >= x
  }

  /** next_free_token: the least token above the listener's that neither a client nor a newcomer holds. */
  method NextFreeToken(c: map<Token, ClientObject>, n: set<Token>) returns (tok: Token)
    ensures tok.n >= 1 && tok !in c && tok !in n
    ensures forall x :: 1 <= x < tok.n ==> Token(x) in c || Token(x) in n
  {
    var x := 1;
    while Token(x) in c || Token(x) in n
      invariant x >= 1
      invariant forall y :: 1 <= y < x ==> Token(y) in c || Token(y) in n
      decreases TokensFrom(c.Keys + n, x)
    {
      assert Token(x) in TokensFrom(c.Keys + n, x) - TokensFrom(c.Keys + n, x + 1);
      x := x + 1;
    }
    return Token(x);
  }

  /** `order` lists each of `keys` exactly once: an iteration order of a map with these keys. */
  predicate Enumerates(order: seq<Token>, keys: set<Token>) {
    Distinct(order) && Elements(order) == keys
  }

  function Elements<T>(s: seq<T>): set<T> {
    set x | x in s
  }

  /** The order in which iterating over a map visits its keys; any order may come out. */
  method EnumerateKeys(keys: set<Token>) returns (order: seq<Token>)
    ensures Enumerates(order, keys)
  {
    order := [];
    var rest := keys;
    while rest != {}
      invariant Distinct(order) && Elements(order) !! rest && Elements(order) + rest == keys
      decreases rest
    {
      var t :| t in rest;
      order := order + [t];
      rest := rest - {t};
    }
  }

  // ---------------------------------------------------------------------------
  // Who plays

  function BotNames(bots: seq<Bot>): seq<Moniker> {
    seq(|bots|, i requires 0 <= i < |bots| => bots[i].moniker)
  }

  function ClientNames(cl: map<Token, ClientObject>): set<Moniker> {
    set t | t in cl :: cl[t].moniker
  }

  /** No two clients share a moniker. */
  predicate NamedUniquely(cl: map<Token, ClientObject>) {
    forall t1, t2 :: t1 in cl && t2 in cl && cl[t1].moniker == cl[t2].moniker ==> t1 == t2
  }

  lemma NamesAppend(s: seq<Entry>, e: Entry)
    ensures Names(s + [e]) == Names(s) + [e.1]
  {
    assert forall i :: 0 <= i < |s| ==> Names(s + [e])[i] == Names(s)[i];
  }

  /** The names left after dropping entry `i`: those before it, then those after it. */
  lemma NamesAfterRemoval(s: seq<Entry>, i: nat, rest: seq<Entry>)
    requires i < |s| && rest == s[..i] + s[i + 1..]
    ensures |Names(rest)| == |s| - 1
    ensures forall a :: 0 <= a < i ==> Names(rest)[a] == Names(s)[a]
    ensures forall a :: i <= a < |rest| ==> Names(rest)[a] == Names(s)[a + 1]
  {
  }

  /** Dropping the entry of a name that occurs once drops just that name. */
  lemma NamesRemove(s: seq<Entry>, m: Moniker)
    requires Distinct(Names(s)) && m in Names(s)
    ensures var i := Position(Names(s), m).value;
            Distinct(Names(s[..i] + s[i + 1..])) && Elements(Names(s[..i] + s[i + 1..])) == Elements(Names(s)) - {m}
  {
    var i := Position(Names(s), m).value;
    var s' := s[..i] + s[i + 1..];
    NamesAfterRemoval(s, i, s');
    forall a, b | 0 <= a < b < |s'| ensures Names(s')[a] != Names(s')[b] {
      var a', b' := if a < i then a else a + 1, if b < i then b else b + 1;
      assert Names(s)[a'] != Names(s)[b'];
    }
    forall x | x in Elements(Names(s)) - {m} ensures x in Elements(Names(s')) {
      var a :| 0 <= a < |s| && Names(s)[a] == x;
      assert a != i;
      assert Names(s')[if a < i then a else a - 1] == x;
    }
    forall x | x in Elements(Names(s')) ensures x in Elements(Names(s)) - {m} {
      var a :| 0 <= a < |s'| && Names(s')[a] == x;
      var a' := if a < i then a else a + 1;
      assert a' != i && Names(s)[a'] == x && Names(s)[i] == m;
    }
  }

  /** Removing the name just appended gives back the list it was appended to. */
  lemma RemoveAppended(s: seq<Entry>, e: Entry)
    requires e.1 !in Names(s)
    ensures Position(Names(s + [e]), e.1) == Some(|s|)
    ensures var i := |s|; (s + [e])[..i] + (s + [e])[i + 1..] == s
  {
    NamesAppend(s, e);
    assert Names(s + [e])[|s|] == e.1;
  }

  // ---------------------------------------------------------------------------
  // Reading from sockets

  /** What handle_newcomer_incoming makes of the first message from a newcomer. */
  function NewcomerIntent(tok: Token, msg: Serverward): ServerCtrlMsg {
    match msg
    case Hello(m) => UpgradeClient(tok, m)
    case ReqMove(_) => DropNewcomerWithErr(tok, ErrorExpectedHello)
  }

  /**
   * The control messages a read from a newcomer queues: only its first message
   * counts, and a broken read drops the newcomer.
   */
  function NewcomerVerdict(tok: Token, input: Incoming): (v: seq<ServerCtrlMsg>)
    ensures |v| <= 2 && forall c :: c in v ==> c.tok == tok
    ensures (|v| > 0 && v[0].UpgradeClient?) <==> |input.msgs| > 0 && input.msgs[0].Hello?
  {
    (if |input.msgs| > 0 then [NewcomerIntent(tok, input.msgs[0])] else [])
    + (if input.end == Broken then [DropNewcomerWithErr(tok, ErrorSocketDead)] else [])
  }

  predicate SaysHello(msgs: seq<Serverward>) {
    exists i :: 0 <= i < |msgs| && msgs[i].Hello?
  }

  /**
   * The control message a read from a client queues: a Hello ends the read and
   * drops the client; otherwise a broken read drops it.
   */
  function ClientVerdict(tok: Token, input: Incoming): (v: seq<ServerCtrlMsg>)
    ensures |v| <= 1 && forall c :: c in v ==> c.DropClientWithErr? && c.tok == tok
    ensures |v| == 0 <==> !SaysHello(input.msgs) && input.end != Broken
  {
    if SaysHello(input.msgs) then [DropClientWithErr(tok, ErrorExpectedReq)]
    else if input.end == Broken then [DropClientWithErr(tok, ErrorSocketDead)]
    else []
  }

  /**
   * The first move request, before any Hello, that `m` can make on the grid
   * `walls` with the entries `s`: the move a client gets when it is not moving
   * too fast, because a refused request leaves the game as it was.
   */
  function FirstLegalMove(walls: seq<seq<bool>>, s: seq<Entry>, m: Moniker, msgs: seq<Serverward>): (r: Option<Direction>)
    requires GridShape(walls) && Placement(s)
    ensures r.Some? ==> StepAllowed(walls, s, m, r.value) && ReqMove(r.value) in msgs
  {
    if msgs == [] then None
    else match msgs[0]
      case Hello(_) => None
      case ReqMove(d) => if StepAllowed(walls, s, m, d) then Some(d) else FirstLegalMove(walls, s, m, msgs[1..])
  }

  /** At a move request, the search either takes it or goes on with the requests after it. */
  lemma FirstLegalMoveAt(walls: seq<seq<bool>>, s: seq<Entry>, m: Moniker, msgs: seq<Serverward>, i: nat)
    requires GridShape(walls) && Placement(s) && i < |msgs| && msgs[i].ReqMove?
    ensures FirstLegalMove(walls, s, m, msgs[i..])
            == if StepAllowed(walls, s, m, msgs[i].dir) then Some(msgs[i].dir) else FirstLegalMove(walls, s, m, msgs[i + 1..])
  {
    assert msgs[i..][1..] == msgs[i + 1..];
  }

  // ---------------------------------------------------------------------------
  // Broadcasting

  /** Whether broadcast_outgoing_updates hands `msg` to client `t`: everyone but the player an AddPlayer announces. */
  predicate Addressee(cl: map<Token, ClientObject>, t: Token, msg: Clientward) {
    t in cl && !(msg.AddPlayer? && cl[t].moniker == msg.moniker)
  }

  /** The clients of `order` that receive `msg`, in that order. */
  function Round(msg: Clientward, order: seq<Token>, cl: map<Token, ClientObject>): seq<Token> {
    if order == [] then []
    else
      var t := order[|order| - 1];
      Round(msg, order[..|order| - 1], cl) + (if Addressee(cl, t, msg) then [t] else [])
  }

  /** `msg` addressed to each of `ts`. */
  function Sends(msg: Clientward, ts: seq<Token>): seq<(Token, Clientward)> {
    seq(|ts|, i requires 0 <= i < |ts| => (ts[i], msg))
  }

  /** Every send of a broadcast of `msgs` to clients `cl` visited in `order`. */
  function Deliveries(msgs: seq<Clientward>, order: seq<Token>, cl: map<Token, ClientObject>): seq<(Token, Clientward)> {
    if msgs == [] then []
    else
      var msg := msgs[|msgs| - 1];
      Deliveries(msgs[..|msgs| - 1], order, cl) + Sends(msg, Round(msg, order, cl))
  }

  /** The drops queued for the clients `ts` whose send of update `k` fails. */
  function RoundDrops(k: nat, ts: seq<Token>, fails: set<(nat, Token)>): (v: seq<ServerCtrlMsg>)
    ensures forall c :: c in v ==> c == DropClientWithErr(c.tok, ErrorSocketDead)
  {
    if ts == [] then []
    else
      var t := ts[|ts| - 1];
      RoundDrops(k, ts[..|ts| - 1], fails) + (if (k, t) in fails then [DropClientWithErr(t, ErrorSocketDead)] else [])
  }

  /** Every drop a broadcast of `msgs` queues, update by update. */
  function Casualties(msgs: seq<Clientward>, order: seq<Token>, cl: map<Token, ClientObject>, fails: set<(nat, Token)>): (v: seq<ServerCtrlMsg>)
    ensures forall c :: c in v ==> c == DropClientWithErr(c.tok, ErrorSocketDead)
  {
    if msgs == [] then []
    else
      var k := |msgs| - 1;
      Casualties(msgs[..k], order, cl, fails) + RoundDrops(k, Round(msgs[k], order, cl), fails)
  }

  /** The messages client `t` is sent, in order. */
  function Project(sends: seq<(Token, Clientward)>, t: Token): seq<Clientward> {
    if sends == [] then []
    else
      var last := sends[|sends| - 1];
      Project(sends[..|sends| - 1], t) + (if last.0 == t then [last.1] else [])
  }

  /** The updates of `msgs` meant for client `t`, in order. */
  function Heard(msgs: seq<Clientward>, cl: map<Token, ClientObject>, t: Token): seq<Clientward> {
    if msgs == [] then []
    else
      var msg := msgs[|msgs| - 1];
      Heard(msgs[..|msgs| - 1], cl, t) + (if Addressee(cl, t, msg) then [msg] else [])
  }

  lemma {:induction false} RoundMembers(msg: Clientward, order: seq<Token>, cl: map<Token, ClientObject>, t: Token)
    ensures t in Round(msg, order, cl) <==> t in order && Addressee(cl, t, msg)
    decreases |order|
  {
    if order != [] {
      var n := |order| - 1;
      RoundMembers(msg, order[..n], cl, t);
      assert order == order[..n] + [order[n]];
    }
  }

  /**
   * A broadcast sends `msg` to `t` exactly when `msg` is one of the updates and
   * `t` is a client it is meant for.
   */
  lemma {:induction false} DeliveriesMembers(msgs: seq<Clientward>, order: seq<Token>, cl: map<Token, ClientObject>,
                                             t: Token, msg: Clientward)
    requires Enumerates(order, cl.Keys)
    ensures (t, msg) in Deliveries(msgs, order, cl) <==> msg in msgs && Addressee(cl, t, msg)
    decreases |msgs|
  {
    if msgs != [] {
      var n := |msgs| - 1;
      DeliveriesMembers(msgs[..n], order, cl, t, msg);
      RoundMembers(msgs[n], order, cl, t);
      assert msgs == msgs[..n] + [msgs[n]];
      var r := Round(msgs[n], order, cl);
      if (t, msg) in Sends(msgs[n], r) {
        var i :| 0 <= i < |r| && Sends(msgs[n], r)[i] == (t, msg);
        assert r[i] == t;
      }
      if msg == msgs[n] && Addressee(cl, t, msg) {
        var i :| 0 <= i < |r| && r[i] == t;
        assert Sends(msgs[n], r)[i] == (t, msg);
      }
    }
  }

  lemma {:induction false} ProjectAppend(a: seq<(Token, Clientward)>, b: seq<(Token, Clientward)>, t: Token)
    ensures Project(a + b, t) == Project(a, t) + Project(b, t)
    decreases |b|
  {
    if b == [] {
      assert a + b == a;
    } else {
      var n := |b| - 1;
      assert (a + b)[..|a + b| - 1] == a + b[..n];
      ProjectAppend(a, b[..n], t);
    }
  }

  /** Visiting one more client of `order` adds it to the round when it is an addressee. */
  lemma RoundStep(msg: Clientward, order: seq<Token>, j: nat, cl: map<Token, ClientObject>)
    requires j < |order|
    ensures Round(msg, order[..j + 1], cl) == Round(msg, order[..j], cl) + if Addressee(cl, order[j], msg) then [order[j]] else []
  {
    assert order[..j + 1][..j] == order[..j];
  }

  /** Sending to one more client adds that send, and its drop when it fails. */
  lemma SendOneMore(k: nat, msg: Clientward, ts: seq<Token>, t: Token, fails: set<(nat, Token)>)
    ensures Sends(msg, ts + [t]) == Sends(msg, ts) + [(t, msg)]
    ensures RoundDrops(k, ts + [t], fails) == RoundDrops(k, ts, fails) + (if (k, t) in fails then [DropClientWithErr(t, ErrorSocketDead)] else [])
  {
    assert (ts + [t])[..|ts|] == ts;
  }

  /** Broadcasting one more update adds its round's sends and drops. */
  lemma BroadcastStep(msgs: seq<Clientward>, k: nat, order: seq<Token>, cl: map<Token, ClientObject>, fails: set<(nat, Token)>)
    requires k < |msgs|
    ensures Deliveries(msgs[..k + 1], order, cl) == Deliveries(msgs[..k], order, cl) + Sends(msgs[k], Round(msgs[k], order, cl))
    ensures Casualties(msgs[..k + 1], order, cl, fails) == Casualties(msgs[..k], order, cl, fails) + RoundDrops(k, Round(msgs[k], order, cl), fails)
  {
    assert msgs[..k + 1][..k] == msgs[..k];
  }

  /** A client listed once hears one copy of a message in one round, when it is an addressee. */
  lemma {:induction false} ProjectRound(msg: Clientward, order: seq<Token>, cl: map<Token, ClientObject>, t: Token)
    requires Distinct(order)
    ensures Project(Sends(msg, Round(msg, order, cl)), t) == if t in order && Addressee(cl, t, msg) then [msg] else []
    decreases |order|
  {
    if order == [] {
      assert Sends(msg, []) == [];
    } else {
      var n := |order| - 1;
      var front, u := order[..n], order[n];
      assert order == front + [u];
      assert Distinct(front);
      assert u !in front by {
        forall i | 0 <= i < n ensures front[i] != u {
          assert order[i] != order[n];
        }
      }
      ProjectRound(msg, front, cl, t);
      var r := Round(msg, front, cl);
      if Addressee(cl, u, msg) {
        assert Round(msg, order, cl) == r + [u];
        SendOneMore(0, msg, r, u, {});
        ProjectAppend(Sends(msg, r), [(u, msg)], t);
        assert Project([(u, msg)], t) == if u == t then [msg] else [] by {
          assert [(u, msg)][..0] == [];
        }
      } else {
        assert Round(msg, order, cl) == r;
      }
    }
  }

  /**
   * Each client receives the updates meant for it in the order they were queued,
   * one copy each.
   */
  lemma {:induction false} DeliveriesInOrder(msgs: seq<Clientward>, order: seq<Token>, cl: map<Token, ClientObject>, t: Token)
    requires Enumerates(order, cl.Keys)
    ensures Project(Deliveries(msgs, order, cl), t) == Heard(msgs, cl, t)
    decreases |msgs|
  {
    if msgs != [] {
      var n := |msgs| - 1;
      DeliveriesInOrder(msgs[..n], order, cl, t);
      ProjectAppend(Deliveries(msgs[..n], order, cl), Sends(msgs[n], Round(msgs[n], order, cl)), t);
      ProjectRound(msgs[n], order, cl, t);
    }
  }

  /**
   * A broadcast drops `t` exactly when some update meant for `t` fails to reach
   * it, and it always says the socket is dead.
   */
  lemma {:induction false} CasualtiesMembers(msgs: seq<Clientward>, order: seq<Token>, cl: map<Token, ClientObject>,
                                             fails: set<(nat, Token)>, t: Token)
    requires Enumerates(order, cl.Keys)
    ensures DropClientWithErr(t, ErrorSocketDead) in Casualties(msgs, order, cl, fails)
            <==> exists k :: 0 <= k < |msgs| && (k, t) in fails && Addressee(cl, t, msgs[k])
    decreases |msgs|
  {
    var drop := DropClientWithErr(t, ErrorSocketDead);
    if msgs == [] {
      assert Casualties(msgs, order, cl, fails) == [];
    } else {
      var k := |msgs| - 1;
      var front := msgs[..k];
      var r := Round(msgs[k], order, cl);
      var cas := Casualties(msgs, order, cl, fails);
      CasualtiesMembers(front, order, cl, fails, t);
      RoundMembers(msgs[k], order, cl, t);
      RoundDropsMembers(k, r, fails, t);
      assert cas == Casualties(front, order, cl, fails) + RoundDrops(k, r, fails);
      if drop in cas {
        if drop in Casualties(front, order, cl, fails) {
          var j :| 0 <= j < k && (j, t) in fails && Addressee(cl, t, front[j]);
          assert msgs[j] == front[j];
        } else {
          assert (k, t) in fails && Addressee(cl, t, msgs[k]);
        }
      }
      forall j | 0 <= j < |msgs| && (j, t) in fails && Addressee(cl, t, msgs[j])
        ensures drop in cas
      {
        if j < k {
          assert front[j] == msgs[j];
          assert drop in Casualties(front, order, cl, fails);
        } else {
          assert j == k && t in Elements(order);
          assert t in r;
        }
      }
    }
  }

  lemma {:induction false} RoundDropsMembers(k: nat, ts: seq<Token>, fails: set<(nat, Token)>, t: Token)
    ensures DropClientWithErr(t, ErrorSocketDead) in RoundDrops(k, ts, fails) <==> t in ts && (k, t) in fails
    decreases |ts|
  {
    if ts != [] {
      var n := |ts| - 1;
      RoundDropsMembers(k, ts[..n], fails, t);
      assert ts == ts[..n] + [ts[n]];
    }
  }

  /** Updates that announce a player joining or leaving: all that do_server_control queues. */
  predicate Announcements(updates: seq<Clientward>) {
    forall u :: u in updates ==> u.AddPlayer? || u.RemovePlayer?
  }

  // ---------------------------------------------------------------------------
  // Bots

  /** The updates game_tick queues: one move for each bot that moved, in bot order. */
  function BotMoves(before: seq<Bot>, after: seq<Bot>, dirs: seq<Direction>): seq<Clientward>
    requires |before| == |after| == |dirs|
  {
    if after == [] then []
    else
      var n := |after| - 1;
      BotMoves(before[..n], after[..n], dirs[..n]) + (if after[n] != before[n] then [UpdMove(after[n].moniker, dirs[n])] else [])
  }

  /** Taking one more bot into account adds its update when it moved. */
  lemma BotMovesStep(before: seq<Bot>, after: seq<Bot>, dirs: seq<Direction>, i: nat)
    requires |before| == |after| == |dirs| && i < |after|
    ensures BotMoves(before[..i + 1], after[..i + 1], dirs[..i + 1])
            == BotMoves(before[..i], after[..i], dirs[..i]) + (if after[i] != before[i] then [UpdMove(after[i].moniker, dirs[i])] else [])
  {
    assert before[..i + 1][..i] == before[..i];
    assert after[..i + 1][..i] == after[..i];
    assert dirs[..i + 1][..i] == dirs[..i];
  }

  /** What game_tick has made of the game, the bots and the update queue after visiting some bots. */
  datatype TickState = TickState(entries: seq<Entry>, bots: seq<Bot>, updates: seq<Clientward>)

  /** Whether game_tick moves `b` on the entry list `s`: it is due, and the game allows its drawn direction. */
  predicate BotMayMove(walls: seq<seq<bool>>, s: seq<Entry>, b: Bot, dir: Direction, now: nat, period: nat)
    requires GridShape(walls) && Placement(s)
  {
    Elapsed(now, b.lastMoveAt) > period && StepAllowed(walls, s, b.moniker, dir)
  }

  /**
   * game_tick over the first `n` bots, in order, each on the game the bots
   * before it left: a due bot whose drawn direction the game allows steps,
   * is restamped with `now` and queues UpdMove; every other bot changes nothing.
   */
  function Tick(walls: seq<seq<bool>>, s: seq<Entry>, bots: seq<Bot>, dirs: seq<Direction>, now: nat, period: nat, n: nat)
    : (t: TickState)
    requires GridShape(walls) && Placement(s) && n <= |bots| == |dirs|
    ensures Placement(t.entries) && Names(t.entries) == Names(s)
    ensures |t.bots| == |bots| && |t.updates| <= n
    ensures forall j :: 0 <= j < |bots| ==>
              t.bots[j] == bots[j] || (j < n && Elapsed(now, bots[j].lastMoveAt) > period && t.bots[j] == Bot(bots[j].moniker, now))
    decreases n
  {
    if n == 0 then TickState(s, bots, [])
    else
      var t := Tick(walls, s, bots, dirs, now, period, n - 1);
      var b := bots[n - 1];
      if BotMayMove(walls, t.entries, b, dirs[n - 1], now, period) then
        TickState(Stepped(walls, t.entries, b.moniker, dirs[n - 1]), t.bots[n - 1 := Bot(b.moniker, now)],
                  t.updates + [UpdMove(b.moniker, dirs[n - 1])])
      else t
  }

  /** The tick over one more bot: that bot, still as it was, steps when it may, on the game the earlier bots left. */
  lemma TickStep(walls: seq<seq<bool>>, s: seq<Entry>, bots: seq<Bot>, dirs: seq<Direction>, now: nat, period: nat, i: nat)
    requires GridShape(walls) && Placement(s) && i < |bots| == |dirs|
    ensures var t := Tick(walls, s, bots, dirs, now, period, i);
            var b := bots[i];
            t.bots[i] == b
            && Tick(walls, s, bots, dirs, now, period, i + 1)
               == if BotMayMove(walls, t.entries, b, dirs[i], now, period)
                  then TickState(Stepped(walls, t.entries, b.moniker, dirs[i]), t.bots[i := Bot(b.moniker, now)],
                                 t.updates + [UpdMove(b.moniker, dirs[i])])
                  else t
  {
  }

  /** A tick keeps every bot's name. */
  lemma TickKeepsBotNames(walls: seq<seq<bool>>, s: seq<Entry>, bots: seq<Bot>, dirs: seq<Direction>, now: nat, period: nat, n: nat)
    requires GridShape(walls) && Placement(s) && n <= |bots| == |dirs|
    ensures BotNames(Tick(walls, s, bots, dirs, now, period, n).bots) == BotNames(bots)
  {
  }

  /** A tick in which no bot is due changes nothing and queues nothing. */
  lemma {:induction false} TickIdle(walls: seq<seq<bool>>, s: seq<Entry>, bots: seq<Bot>, dirs: seq<Direction>,
                                    now: nat, period: nat, n: nat)
    requires GridShape(walls) && Placement(s) && n <= |bots| == |dirs|
    requires forall j :: 0 <= j < |bots| ==> Elapsed(now, bots[j].lastMoveAt) <= period
    ensures Tick(walls, s, bots, dirs, now, period, n) == TickState(s, bots, [])
    decreases n
  {
    if n > 0 {
      TickIdle(walls, s, bots, dirs, now, period, n - 1);
    }
  }

  /**
   * A tick queues exactly one UpdMove, with the bot's drawn direction, for each
   * bot whose timestamp it reset, in bot order: a bot is restamped exactly when
   * its move went through.
   */
  lemma {:induction false} TickUpdates(walls: seq<seq<bool>>, s: seq<Entry>, bots: seq<Bot>, dirs: seq<Direction>,
                                       now: nat, period: nat, n: nat)
    requires GridShape(walls) && Placement(s) && n <= |bots| == |dirs|
    ensures var t := Tick(walls, s, bots, dirs, now, period, n);
            t.updates == BotMoves(bots[..n], t.bots[..n], dirs[..n])
    decreases n
  {
    if n > 0 {
      var t := Tick(walls, s, bots, dirs, now, period, n - 1);
      var t' := Tick(walls, s, bots, dirs, now, period, n);
      TickUpdates(walls, s, bots, dirs, now, period, n - 1);
      TickStep(walls, s, bots, dirs, now, period, n - 1);
      assert t'.bots[..n - 1] == t.bots[..n - 1];
      BotMovesStep(bots, t'.bots, dirs, n - 1);
    }
  }

  /**
   * The inner loop of broadcast_outgoing_updates for update `k`: visit the
   * clients in `order`, skip the player an AddPlayer announces, and collect the
   * sends made and the drops queued for the sends that fail.
   */
  method FanOut(k: nat, msg: Clientward, order: seq<Token>, cl: map<Token, ClientObject>, sendFails: set<(nat, Token)>)
    returns (out: seq<(Token, Clientward)>, drops: seq<ServerCtrlMsg>)
    requires Elements(order) == cl.Keys
    ensures out == Sends(msg, Round(msg, order, cl))
    ensures drops == RoundDrops(k, Round(msg, order, cl), sendFails)
  {
    out, drops := [], [];
    ghost var round: seq<Token> := [];
    var j := 0;
    while j < |order|
      invariant j <= |order| && round == Round(msg, order[..j], cl)
      invariant out == Sends(msg, round) && drops == RoundDrops(k, round, sendFails)
    {
      var t := order[j];
      assert t in Elements(order);
      RoundStep(msg, order, j, cl);
      if !(msg.AddPlayer? && cl[t].moniker == msg.moniker) {
        SendOneMore(k, msg, round, t, sendFails);
        out := out + [(t, msg)];
        if (k, t) in sendFails {
          drops := drops + [DropClientWithErr(t, ErrorSocketDead)];
        }
        round := round + [t];
      } else {
        assert round + [] == round;
      }
      j := j + 1;
    }
    assert order[..j] == order;
  }

  /**
   * The entry list after the first `n` names of `ms` are put in order, each on
   * the first of its draws that no entry holds at that moment. A name whose
   * draws are all held is left out; init_bots panics there instead.
   */
  function Placed(s: seq<Entry>, ms: seq<Moniker>, spots: seq<seq<Coord2D>>, n: nat): seq<Entry>
    requires n <= |ms| <= |spots|
    // The draws in the measure keep the verifier from unrolling from a literal count.
    decreases n, spots
  {
    if n == 0 then s
    else
      TakeFirstFree(Placed(s, ms, spots, n - 1), ms[n - 1], spots[n - 1])
  }

  /** One name put on the first of its draws that no entry holds; left out when all are held. */
  function TakeFirstFree(s: seq<Entry>, m: Moniker, draws: seq<Coord2D>): seq<Entry>
  {
    match FirstUnheld(s, draws)
    case None => s
    case Some(c) => s + [(c, m)]
  }

  /** Putting one more name is one more TakeFirstFree on what the names before it left. */
  lemma PlacedStep(s: seq<Entry>, ms: seq<Moniker>, spots: seq<seq<Coord2D>>, n: nat)
    requires n < |ms| <= |spots|
    ensures Placed(s, ms, spots, n + 1) == TakeFirstFree(Placed(s, ms, spots, n), ms[n], spots[n])
  {
  }

  /**
   * init_bots: put each bot of BOT_MONIKERS on the first free cell drawn for it.
   * The requires leaves room for every bot, so the expect calls never fire.
   */
  method InitBots(g: GameState, spots: seq<seq<Coord2D>>, now: nat) returns (bots: seq<Bot>)
    requires g.Valid() && |g.essence.monikers| + |BOT_MONIKERS| <= CELLS
    requires |spots| == |BOT_MONIKERS| && forall k :: 0 <= k < |spots| ==> Covers(spots[k])
    modifies g
    ensures g.Valid() && g.essence.randSeed == old(g.essence.randSeed)
    ensures BotNames(bots) == BOT_MONIKERS && forall i :: 0 <= i < |bots| ==> bots[i].lastMoveAt == now
    ensures Names(g.essence.monikers) == old(Names(g.essence.monikers)) + BOT_MONIKERS
    ensures g.essence.monikers == Placed(old(g.essence.monikers), BOT_MONIKERS, spots, |BOT_MONIKERS|)
  {
    bots := [];
    ghost var s0 := g.essence.monikers;
    for i := 0 to |BOT_MONIKERS|
      invariant g.Valid() && g.essence.randSeed == old(g.essence.randSeed)
      invariant |bots| == i && forall j :: 0 <= j < i ==> bots[j] == Bot(BOT_MONIKERS[j], now)
      invariant Names(g.essence.monikers) == Names(s0) + BOT_MONIKERS[..i]
      invariant g.essence.monikers == Placed(s0, BOT_MONIKERS, spots, i)
    {
      var bot := PlaceBot(g, BOT_MONIKERS[i], spots[i], now);
      bots := bots + [bot];
      assert g.essence.monikers == Placed(s0, BOT_MONIKERS, spots, i + 1) by {
        PlacedStep(s0, BOT_MONIKERS, spots, i);
      }
      assert BOT_MONIKERS[..i + 1] == BOT_MONIKERS[..i] + [BOT_MONIKERS[i]];
    }
    assert BotNames(bots) == BOT_MONIKERS;
  }

  /** One pass of init_bots' loop: the bot takes the first free cell drawn for it. */
  method PlaceBot(g: GameState, m: Moniker, draws: seq<Coord2D>, now: nat) returns (bot: Bot)
    requires g.Valid() && |g.essence.monikers| < CELLS && Covers(draws)
    modifies g
    ensures g.Valid() && g.essence.randSeed == old(g.essence.randSeed) && bot == Bot(m, now)
    ensures g.essence.monikers == TakeFirstFree(old(g.essence.monikers), m, draws)
    ensures Names(g.essence.monikers) == Names(old(g.essence.monikers)) + [m]
  {
    var spot := g.RandomFreeSpot(draws);
    var coord := spot.value;
    ghost var before := g.essence.monikers;
    var ok := g.TryPutMoniker(m, coord);
    NamesAppend(before, (coord, m));
    bot := Bot(m, now);
  }

  /** server_enter's game: an empty game drawn from `seed`, then the bots placed on it. */
  method NewGame(seed: GameStateSeed, rng: WallDraws, botSpots: seq<seq<Coord2D>>, now: nat) returns (g: GameState, bots: seq<Bot>)
    requires |botSpots| == |BOT_MONIKERS| && forall k :: 0 <= k < |botSpots| ==> Covers(botSpots[k])
    ensures fresh(g) && g.Valid() && g.essence.randSeed == seed && g.rng == rng
    ensures Names(g.essence.monikers) == BOT_MONIKERS
    ensures BotNames(bots) == BOT_MONIKERS && forall i :: 0 <= i < |bots| ==> bots[i].lastMoveAt == now
  {
    g := new GameState.FromEssence(GameStateEssence([], seed), rng);
    assert Names(g.essence.monikers) == [];
    bots := InitBots(g, botSpots, now);
  }

  // ---------------------------------------------------------------------------
  // The reactor

  class Reactor {
    var clients: map<Token, ClientObject>
    var newcomers: set<Token>
    var serverControl: seq<ServerCtrlMsg>
    var outgoingUpdates: seq<Clientward>
    var bots: seq<Bot>
    /** Every message handed to a socket, with that socket's token, in order. */
    var sent: seq<(Token, Clientward)>
    const game: GameState

    /**
     * What the server keeps true: the listener's token is nobody's, no socket
     * is both a client and a newcomer, every player name occurs once, and the
     * players are exactly the bots and the clients.
     */
    ghost predicate Inv()
      reads this, game
    {
      game.Valid()
      && LISTENER_TOKEN !in clients && LISTENER_TOKEN !in newcomers
      && clients.Keys !! newcomers
      && Distinct(Names(game.essence.monikers))
      && Distinct(BotNames(bots))
      && NamedUniquely(clients)
      && Elements(BotNames(bots)) !! ClientNames(clients)
      && Elements(Names(game.essence.monikers)) == Elements(BotNames(bots)) + ClientNames(clients)
    }

    /** server_enter's set-up: an empty game drawn from `seed`, no connections, and the bots placed. */
    constructor (seed: GameStateSeed, rng: WallDraws, botSpots: seq<seq<Coord2D>>, now: nat)
      requires |botSpots| == |BOT_MONIKERS| && forall k :: 0 <= k < |botSpots| ==> Covers(botSpots[k])
      ensures Inv() && fresh(game)
      ensures clients == map[] && newcomers == {} && serverControl == [] && outgoingUpdates == [] && sent == []
      ensures BotNames(bots) == BOT_MONIKERS && forall i :: 0 <= i < |bots| ==> bots[i].lastMoveAt == now
      ensures Names(game.essence.monikers) == BOT_MONIKERS && game.essence.randSeed == seed && game.rng == rng
    {
      var g, b := NewGame(seed, rng, botSpots, now);
      game := g;
      bots := b;
      clients := map[];
      newcomers := {};
      serverControl := [];
      outgoingUpdates := [];
      sent := [];
      new;
      assert Names(game.essence.monikers) == BOT_MONIKERS == BotNames(bots);
      assert Distinct(BOT_MONIKERS) by {
        assert BOT_MONIKERS[0] != BOT_MONIKERS[1];
      }
      assert ClientNames(clients) == {};
    }

    /** The listener arm of server_enter: register an accepted connection as a newcomer under a free token. */
    method Accept() returns (tok: Token)
      requires Inv()
      modifies this`newcomers
      ensures Inv()
      ensures tok != LISTENER_TOKEN && tok !in clients && tok !in old(newcomers)
      ensures newcomers == old(newcomers) + {tok}
    {
      tok := NextFreeToken(clients, newcomers);
      newcomers := newcomers + {tok};
    }

    /** handle_newcomer_incoming: queue what the newcomer's first message asks for, and drop it if its socket broke. */
    method HandleNewcomerIncoming(tok: Token, input: Incoming)
      requires tok in newcomers
      modifies this`serverControl
      ensures serverControl == old(serverControl) + NewcomerVerdict(tok, input)
    {
      var done := false;
      var i := 0;
      while i < |input.msgs|
        invariant i <= |input.msgs| && done == (i > 0)
        invariant serverControl == old(serverControl) + if i > 0 then [NewcomerIntent(tok, input.msgs[0])] else []
      {
        if !done {
          match input.msgs[i] {
            case Hello(m) =>
              serverControl := serverControl + [UpgradeClient(tok, m)];
            case ReqMove(_) =>
              serverControl := serverControl + [DropNewcomerWithErr(tok, ErrorExpectedHello)];
          }
          done := true;
        }
        i := i + 1;
      }
      if input.end == Broken {
        serverControl := serverControl + [DropNewcomerWithErr(tok, ErrorSocketDead)];
      }
    }

    /**
     * handle_client_incoming: apply the client's move requests until a Hello
     * or the end of the read, then queue what the read calls for. A request
     * within MOVE_PERIOD of the client's last move is skipped, so at most one
     * request is granted per read, and that one is the first the game allows.
     */
    method HandleClientIncoming(tok: Token, input: Incoming, now: nat)
      requires Inv() && tok in clients
      modifies this`clients, this`outgoingUpdates, this`serverControl, game
      ensures Inv()
      ensures serverControl == old(serverControl) + ClientVerdict(tok, input)
      ensures clients.Keys == old(clients.Keys)
      ensures Names(game.essence.monikers) == old(Names(game.essence.monikers))
      ensures var m := old(clients[tok].moniker);
              var move := if Elapsed(now, old(clients[tok].lastMoveAt)) < MOVE_PERIOD then None
                          else FirstLegalMove(game.walls, old(game.essence.monikers), m, input.msgs);
              if move.None? then
                unchanged(game) && clients == old(clients) && outgoingUpdates == old(outgoingUpdates)
              else
                game.essence.monikers == Stepped(game.walls, old(game.essence.monikers), m, move.value)
                && clients == old(clients)[tok := ClientObject(m, now)]
                && outgoingUpdates == old(outgoingUpdates) + [UpdMove(m, move.value)]
    {
      var m := clients[tok].moniker;
      KeepClientNames(clients, tok, now);
      var hello := ReadRequests(tok, m, input.msgs, now);
      if hello {
        serverControl := serverControl + [DropClientWithErr(tok, ErrorExpectedReq)];
      } else if input.end == Broken {
        serverControl := serverControl + [DropClientWithErr(tok, ErrorSocketDead)];
      }
    }

    /**
     * The read loop of handle_client_incoming: serve the move requests in
     * order and stop at the first Hello, which `hello` reports.
     */
    method ReadRequests(tok: Token, m: Moniker, msgs: seq<Serverward>, now: nat) returns (hello: bool)
      requires game.Valid() && tok in clients && clients[tok].moniker == m
      modifies this`clients, this`outgoingUpdates, game
      ensures game.Valid() && Names(game.essence.monikers) == old(Names(game.essence.monikers))
      ensures hello <==> SaysHello(msgs)
      ensures var move := if Elapsed(now, old(clients[tok].lastMoveAt)) < MOVE_PERIOD then None
                          else FirstLegalMove(game.walls, old(game.essence.monikers), m, msgs);
              if move.None? then
                unchanged(game) && clients == old(clients) && outgoingUpdates == old(outgoingUpdates)
              else
                game.essence.monikers == Stepped(game.walls, old(game.essence.monikers), m, move.value)
                && clients == old(clients)[tok := ClientObject(m, now)]
                && outgoingUpdates == old(outgoingUpdates) + [UpdMove(m, move.value)]
    {
      ghost var limited := Elapsed(now, clients[tok].lastMoveAt) < MOVE_PERIOD;
      ghost var entries := game.essence.monikers;
      ghost var move := if limited then None else FirstLegalMove(game.walls, entries, m, msgs);
      ghost var after := if move.Some? then Stepped(game.walls, entries, m, move.value) else [];
      ghost var clients0, updates0 := clients, outgoingUpdates;
      ghost var moved := false;
      var i := 0;
      while i < |msgs|
        invariant i <= |msgs| && forall j :: 0 <= j < i ==> !msgs[j].Hello?
        invariant game.Valid() && Names(game.essence.monikers) == old(Names(game.essence.monikers))
        invariant !moved ==> unchanged(game) && clients == clients0 && outgoingUpdates == updates0
        invariant !moved && !limited ==> FirstLegalMove(game.walls, entries, m, msgs[i..]) == move
        invariant limited ==> !moved
        invariant moved ==> move.Some? && game.essence.monikers == after
                            && clients == clients0[tok := ClientObject(m, now)]
                            && outgoingUpdates == updates0 + [UpdMove(m, move.value)]
      {
        match msgs[i] {
          case Hello(_) =>
            assert msgs[i].Hello?;
            return true;
          case ReqMove(dir) =>
            assert msgs[i] == ReqMove(dir);
            FirstLegalMoveAt(game.walls, entries, m, msgs, i);
            var ok := ServeMove(tok, m, dir, now);
            moved := moved || ok;
        }
        i := i + 1;
      }
      hello := false;
    }

    /**
     * The ReqMove arm of handle_client_incoming: a client that last moved at
     * least MOVE_PERIOD ago makes the move if the game allows it, and the move
     * is queued as an update; otherwise nothing changes.
     */
    method ServeMove(tok: Token, m: Moniker, dir: Direction, now: nat) returns (ok: bool)
      requires game.Valid() && tok in clients && clients[tok].moniker == m
      modifies this`clients, this`outgoingUpdates, game
      ensures game.Valid() && Names(game.essence.monikers) == old(Names(game.essence.monikers))
      ensures ok <==> Elapsed(now, old(clients[tok].lastMoveAt)) >= MOVE_PERIOD && StepAllowed(game.walls, old(game.essence.monikers), m, dir)
      ensures ok ==> game.essence.monikers == Stepped(game.walls, old(game.essence.monikers), m, dir)
                     && clients == old(clients)[tok := ClientObject(m, now)]
                     && outgoingUpdates == old(outgoingUpdates) + [UpdMove(m, dir)]
      ensures !ok ==> unchanged(game) && clients == old(clients) && outgoingUpdates == old(outgoingUpdates)
    {
      ok := false;
      if Elapsed(now, clients[tok].lastMoveAt) >= MOVE_PERIOD {
        ok := game.MoveMonikerInDir(m, dir);
        if ok {
          clients := clients[tok := clients[tok].(lastMoveAt := now)];
          outgoingUpdates := outgoingUpdates + [UpdMove(m, dir)];
        }
      }
    }

    /**
     * One bot of game_tick: a bot whose last move is more than `botMovePeriod`
     * ago tries the direction drawn for it, and a move the game allows is
     * queued as an update; otherwise nothing changes.
     */
    method MoveBot(i: nat, dir: Direction, now: nat, botMovePeriod: nat) returns (ok: bool)
      requires game.Valid() && i < |bots|
      modifies this`bots, this`outgoingUpdates, game
      ensures game.Valid() && Names(game.essence.monikers) == old(Names(game.essence.monikers))
      ensures ok <==> BotMayMove(game.walls, old(game.essence.monikers), old(bots[i]), dir, now, botMovePeriod)
      ensures ok ==> game.essence.monikers == Stepped(game.walls, old(game.essence.monikers), old(bots[i].moniker), dir)
                     && bots == old(bots)[i := Bot(old(bots[i].moniker), now)]
                     && outgoingUpdates == old(outgoingUpdates) + [UpdMove(old(bots[i].moniker), dir)]
      ensures !ok ==> unchanged(game) && bots == old(bots) && outgoingUpdates == old(outgoingUpdates)
    {
      ok := false;
      var bot := bots[i];
      if Elapsed(now, bot.lastMoveAt) > botMovePeriod {
        ok := game.MoveMonikerInDir(bot.moniker, dir);
        if ok {
          bots := bots[i := bot.(lastMoveAt := now)];
          outgoingUpdates := outgoingUpdates + [UpdMove(bot.moniker, dir)];
        }
      }
    }

    /** game_tick: each bot due to move picks a direction; a move the game allows is queued as an update. */
    method GameTick(now: nat, botMovePeriod: nat, dirs: seq<Direction>)
      requires Inv() && |dirs| == |bots|
      modifies this`bots, this`outgoingUpdates, game
      ensures Inv()
      ensures var t := Tick(game.walls, old(game.essence.monikers), old(bots), dirs, now, botMovePeriod, |dirs|);
              game.essence.monikers == t.entries && bots == t.bots && outgoingUpdates == old(outgoingUpdates) + t.updates
    {
      ghost var before, entries := bots, game.essence.monikers;
      MoveBots(now, botMovePeriod, dirs);
      TickKeepsBotNames(game.walls, entries, before, dirs, now, botMovePeriod, |dirs|);
    }

    /** The loop of game_tick: the bots in order, each on the game the bots before it left. */
    method MoveBots(now: nat, botMovePeriod: nat, dirs: seq<Direction>)
      requires game.Valid() && |dirs| == |bots|
      modifies this`bots, this`outgoingUpdates, game
      ensures game.Valid()
      ensures var t := Tick(game.walls, old(game.essence.monikers), old(bots), dirs, now, botMovePeriod, |dirs|);
              game.essence.monikers == t.entries && bots == t.bots && outgoingUpdates == old(outgoingUpdates) + t.updates
    {
      ghost var before, entries, updates := bots, game.essence.monikers, outgoingUpdates;
      for i := 0 to |bots|
        invariant game.Valid()
        invariant var t := Tick(game.walls, entries, before, dirs, now, botMovePeriod, i);
                  game.essence.monikers == t.entries && bots == t.bots && outgoingUpdates == updates + t.updates
      {
        TickStep(game.walls, entries, before, dirs, now, botMovePeriod, i);
        var _ := MoveBot(i, dirs[i], now, botMovePeriod);
      }
    }

    /**
     * broadcast_outgoing_updates: hand each queued update to every client it is
     * meant for, visiting the clients in `order`, and queue a drop for each
     * send that fails; (k, t) in `sendFails` says the send of update k to t fails.
     */
    method BroadcastOutgoingUpdates(order: seq<Token>, sendFails: set<(nat, Token)>)
      requires Enumerates(order, clients.Keys)
      modifies this`sent, this`serverControl, this`outgoingUpdates
      ensures outgoingUpdates == []
      ensures sent == old(sent) + Deliveries(old(outgoingUpdates), order, clients)
      ensures serverControl == old(serverControl) + Casualties(old(outgoingUpdates), order, clients, sendFails)
    {
      var msgs, cl := outgoingUpdates, clients;
      var out, drops := [], [];
      var k := 0;
      while k < |msgs|
        invariant k <= |msgs|
        invariant unchanged(this)
        invariant out == Deliveries(msgs[..k], order, cl)
        invariant drops == Casualties(msgs[..k], order, cl, sendFails)
      {
        var roundOut, roundDrops := FanOut(k, msgs[k], order, cl, sendFails);
        BroadcastStep(msgs, k, order, cl, sendFails);
        out, drops := out + roundOut, drops + roundDrops;
        k := k + 1;
      }
      assert msgs[..k] == msgs;
      sent, serverControl := sent + out, serverControl + drops;
      outgoingUpdates := [];
    }

    /** The DropNewcomerWithErr arm of do_server_control: forget the newcomer and send it the error. */
    method DropNewcomer(tok: Token, err: Clientward)
      requires Inv()
      modifies this`newcomers, this`sent
      ensures Inv()
      ensures newcomers == old(newcomers) - {tok}
      ensures sent == old(sent) + if tok in old(newcomers) then [(tok, err)] else []
    {
      if tok in newcomers {
        newcomers := newcomers - {tok};
        sent := sent + [(tok, err)];
      }
    }

    /**
     * The DropClientWithErr arm of do_server_control: forget the client, send it
     * the error, take its player out of the game and announce that.
     */
    method DropClient(tok: Token, err: Clientward)
      requires Inv()
      modifies this`clients, this`sent, this`outgoingUpdates, game
      ensures Inv()
      ensures clients == old(clients) - {tok}
      ensures tok !in old(clients) ==> unchanged(game) && sent == old(sent) && outgoingUpdates == old(outgoingUpdates)
      ensures tok in old(clients) ==>
                var m := old(clients[tok].moniker);
                sent == old(sent) + [(tok, err)]
                && outgoingUpdates == old(outgoingUpdates) + [RemovePlayer(m)]
                && Elements(Names(game.essence.monikers)) == old(Elements(Names(game.essence.monikers))) - {m}
      ensures tok in old(clients) ==>
                var i := old(Position(Names(game.essence.monikers), clients[tok].moniker)).value;
                game.essence.monikers == old(game.essence.monikers[..i] + game.essence.monikers[i + 1..])
    {
      if tok in clients {
        var obj := clients[tok];
        ghost var before := game.essence.monikers;
        assert obj.moniker in ClientNames(clients);
        NamesRemove(before, obj.moniker);
        DropClientNames(clients, tok);
        clients := clients - {tok};
        sent := sent + [(tok, err)];
        var ok := game.TryRemoveMoniker(obj.moniker);
        if ok {
          outgoingUpdates := outgoingUpdates + [RemovePlayer(obj.moniker)];
        }
      }
    }

    /**
     * The UpgradeClient arm of do_server_control, with the welcome failure
     * handled: a newcomer whose name is free gets a player on the first free
     * cell drawn, the game essence, and a client record; if the welcome cannot
     * be sent, its player is taken out again. `halted` is a panic: the token is
     * no newcomer, or no cell is free.
     */
    method Upgrade(tok: Token, m: Moniker, draws: seq<Coord2D>, welcomeOk: bool, now: nat) returns (halted: bool)
      requires Inv() && Covers(draws)
      modifies this`newcomers, this`sent, this`clients, this`outgoingUpdates, game
      ensures Inv()
      ensures halted <==> tok !in old(newcomers) || (!old(game.ContainsMoniker(m)) && |old(game.essence.monikers)| >= CELLS)
      ensures newcomers == old(newcomers) - {tok} && old(sent) <= sent
      ensures halted ==> clients == old(clients) && outgoingUpdates == old(outgoingUpdates)
      ensures !halted && old(game.ContainsMoniker(m)) ==>
                sent == old(sent) + [(tok, ErrorTakenMoniker)] && unchanged(game)
                && clients == old(clients) && outgoingUpdates == old(outgoingUpdates)
      ensures !halted && !old(game.ContainsMoniker(m)) ==>
                var spot := old(FirstUnheld(game.essence.monikers, draws));
                spot.Some?
                && sent == old(sent) + [(tok, Welcome(old(game.essence).(monikers := old(game.essence.monikers) + [(spot.value, m)])))]
                && if welcomeOk then
                     game.essence.monikers == old(game.essence.monikers) + [(spot.value, m)]
                     && clients == old(clients)[tok := ClientObject(m, now)]
                     && outgoingUpdates == old(outgoingUpdates) + [AddPlayer(m, spot.value)]
                   else
                     game.essence == old(game.essence) && clients == old(clients) && outgoingUpdates == old(outgoingUpdates)
    {
      if tok !in newcomers {
        return true;
      }
      newcomers := newcomers - {tok};
      if game.ContainsMoniker(m) {
        sent := sent + [(tok, ErrorTakenMoniker)];
        return false;
      }
      var spot := game.RandomFreeSpot(draws);
      if spot.None? {
        return true;
      }
      var coord := spot.value;
      ghost var before := game.essence.monikers;
      NameIsFree(before, m);
      NamesAppend(before, (coord, m));
      var ok := game.TryPutMoniker(m, coord);
      if ok {
        sent := sent + [(tok, Welcome(game.essence))];
        if welcomeOk {
          AddClientNames(clients, tok, m, now);
          clients := clients[tok := ClientObject(m, now)];
          outgoingUpdates := outgoingUpdates + [AddPlayer(m, coord)];
        } else {
          RemoveAppended(before, (coord, m));
          var _ := game.TryRemoveMoniker(m);
        }
      }
      halted := false;
    }

    /**
     * The UpgradeClient arm of do_server_control as written: when the welcome
     * cannot be sent the player stays in the game with no client behind it, so
     * its name and its cell stay taken for good.
     */
    method UpgradeAsWritten(tok: Token, m: Moniker, draws: seq<Coord2D>, welcomeOk: bool, now: nat) returns (halted: bool)
      requires Inv() && Covers(draws)
      modifies this`newcomers, this`sent, this`clients, this`outgoingUpdates, game
      ensures halted <==> tok !in old(newcomers) || (!old(game.ContainsMoniker(m)) && |old(game.essence.monikers)| >= CELLS)
      ensures !halted && !old(game.ContainsMoniker(m)) && !welcomeOk ==>
                m in Names(game.essence.monikers) && m !in ClientNames(clients) && m !in BotNames(bots) && !Inv()
      ensures halted || old(game.ContainsMoniker(m)) || welcomeOk ==> Inv()
    {
      if tok !in newcomers {
        return true;
      }
      newcomers := newcomers - {tok};
      if game.ContainsMoniker(m) {
        sent := sent + [(tok, ErrorTakenMoniker)];
        return false;
      }
      var spot := game.RandomFreeSpot(draws);
      if spot.None? {
        return true;
      }
      var coord := spot.value;
      ghost var before := game.essence.monikers;
      NameIsFree(before, m);
      NamesAppend(before, (coord, m));
      var ok := game.TryPutMoniker(m, coord);
      if ok {
        sent := sent + [(tok, Welcome(game.essence))];
        if welcomeOk {
          AddClientNames(clients, tok, m, now);
          clients := clients[tok := ClientObject(m, now)];
          outgoingUpdates := outgoingUpdates + [AddPlayer(m, coord)];
        } else {
          assert Names(game.essence.monikers)[|before|] == m;
          assert m !in Elements(BotNames(bots)) + ClientNames(clients);
        }
      }
      halted := false;
    }

    /**
     * do_server_control: apply the queued control messages in order and empty
     * the queue. `spots(k)` are the cells drawn for message k and `k in
     * welcomeFails` says its welcome cannot be sent. `halted` is a panic.
     */
    method DoServerControl(now: nat, spots: nat -> seq<Coord2D>, welcomeFails: set<nat>) returns (halted: bool)
      requires Inv() && forall k :: Covers(spots(k))
      modifies this`newcomers, this`sent, this`clients, this`outgoingUpdates, this`serverControl, game
      ensures Inv()
      ensures !halted ==> serverControl == []
      ensures newcomers <= old(newcomers) && clients.Keys <= old(clients.Keys) + old(newcomers)
      ensures !halted ==> forall c :: c in old(serverControl) && !c.DropClientWithErr? ==> c.tok !in newcomers
      ensures !halted ==> forall c :: c in old(serverControl) && c.DropClientWithErr? && c.tok !in old(newcomers) ==> c.tok !in clients
      ensures old(sent) <= sent
      ensures Announcements(old(outgoingUpdates)) ==> Announcements(outgoingUpdates)
    {
      halted := false;
      var k := 0;
      while k < |serverControl|
        invariant Inv() && k <= |serverControl| && serverControl == old(serverControl)
        invariant newcomers <= old(newcomers) && clients.Keys <= old(clients.Keys) + old(newcomers)
        invariant forall j :: 0 <= j < k && !serverControl[j].DropClientWithErr? ==> serverControl[j].tok !in newcomers
        invariant forall j :: 0 <= j < k && serverControl[j].DropClientWithErr? && serverControl[j].tok !in old(newcomers) ==> serverControl[j].tok !in clients
        invariant old(sent) <= sent
        invariant Announcements(old(outgoingUpdates)) ==> Announcements(outgoingUpdates)
      {
        match serverControl[k] {
          case DropNewcomerWithErr(tok, err) =>
            DropNewcomer(tok, err);
          case DropClientWithErr(tok, err) =>
            DropClient(tok, err);
          case UpgradeClient(tok, m) =>
            halted := Upgrade(tok, m, spots(k), k !in welcomeFails, now);
            if halted {
              return;
            }
        }
        k := k + 1;
      }
      serverControl := [];
    }

    /**
     * One pass of server_enter's loop: handle each polled event, move the bots
     * when some client is connected, broadcast the queued updates and apply the
     * control messages. `halted` is a panic: an event for an unknown token or
     * one from do_server_control.
     */
    method Pass(events: seq<Event>, now: nat, botMovePeriod: nat, botDirs: seq<Direction>, sendFails: set<(nat, Token)>,
                spots: nat -> seq<Coord2D>, welcomeFails: set<nat>) returns (halted: bool)
      requires Inv() && |botDirs| == |bots| && forall k :: Covers(spots(k))
      modifies this, game
      ensures Inv()
      ensures !halted ==> serverControl == [] && Announcements(outgoingUpdates)
      ensures old(clients) == map[] ==> bots == old(bots)
      ensures old(sent) <= sent
    {
      for i := 0 to |events|
        invariant Inv() && bots == old(bots) && clients.Keys == old(clients.Keys) && old(sent) <= sent
      {
        var e := events[i];
        if e.tok == LISTENER_TOKEN {
          var _ := Accept();
        } else if e.readable {
          if e.tok in clients {
            HandleClientIncoming(e.tok, e.input, now);
          } else if e.tok in newcomers {
            HandleNewcomerIncoming(e.tok, e.input);
          } else {
            return true;
          }
        }
      }
      if clients != map[] {
        GameTick(now, botMovePeriod, botDirs);
      }
      if outgoingUpdates != [] {
        var order := EnumerateKeys(clients.Keys);
        BroadcastOutgoingUpdates(order, sendFails);
      }
      if serverControl != [] {
        halted := DoServerControl(now, spots, welcomeFails);
      } else {
        halted := false;
      }
    }
  }

  /** A name that no entry of a list carries is not among the list's names. */
  lemma NameIsFree(s: seq<Entry>, m: Moniker)
    requires forall i :: 0 <= i < |s| ==> s[i].1 != m
    ensures m !in Names(s)
  {
    forall i | 0 <= i < |s| ensures Names(s)[i] != m {
      assert s[i].1 != m;
    }
  }

  /** Refreshing a client's last move keeps the set of client names. */
  lemma KeepClientNames(cl: map<Token, ClientObject>, tok: Token, now: nat)
    requires tok in cl
    ensures ClientNames(cl[tok := cl[tok].(lastMoveAt := now)]) == ClientNames(cl)
    ensures NamedUniquely(cl) ==> NamedUniquely(cl[tok := cl[tok].(lastMoveAt := now)])
  {
    var cl' := cl[tok := cl[tok].(lastMoveAt := now)];
    forall x | x in ClientNames(cl) ensures x in ClientNames(cl') {
      var t :| t in cl && cl[t].moniker == x;
      assert cl'[t].moniker == x;
    }
  }

  /** Dropping a client drops just its name when no other client shares it. */
  lemma DropClientNames(cl: map<Token, ClientObject>, tok: Token)
    requires tok in cl && NamedUniquely(cl)
    ensures ClientNames(cl - {tok}) == ClientNames(cl) - {cl[tok].moniker}
    ensures NamedUniquely(cl - {tok})
  {
    forall x | x in ClientNames(cl) - {cl[tok].moniker} ensures x in ClientNames(cl - {tok}) {
      var t :| t in cl && cl[t].moniker == x;
      assert t != tok && t in cl - {tok} && (cl - {tok})[t].moniker == x;
    }
  }

  /** A new client adds its name. */
  lemma AddClientNames(cl: map<Token, ClientObject>, tok: Token, m: Moniker, now: nat)
    requires tok !in cl && m !in ClientNames(cl)
    ensures ClientNames(cl[tok := ClientObject(m, now)]) == ClientNames(cl) + {m}
    ensures NamedUniquely(cl) ==> NamedUniquely(cl[tok := ClientObject(m, now)])
  {
    var cl' := cl[tok := ClientObject(m, now)];
    forall x | x in ClientNames(cl) ensures x in ClientNames(cl') {
      var t :| t in cl && cl[t].moniker == x;
      assert t != tok && cl'[t].moniker == x;
    }
    assert cl'[tok].moniker == m;
  }
}

/**
 Workers sharing the browser pool (internal/browser/pool.go with the sticky sessions of
 internal/pipeline/renderer.go: ensureSession, RenderFrame, dropSession, Close).

 A client is one worker of one renderer.  Any number of clients use the pool at once; each
 action is one step of one of them, and the pool's channel, registry and flags change as in
 BrowserPool.  All this happens before Pool.Close.
 */
module BrowserSessions {
  import opened Wrappers
  import opened BrowserPool
  import opened Holdings

  datatype ClientPc =
    | Outside                  // between frames
    | Acquiring                // in Acquire, waiting at the select
    | Replacing(b: Browser)    // in Acquire, launching a replacement for b
    | Preparing(b: Browser)    // Acquire returned b; setting the viewport
    | Rendering                // session ready, rendering a frame
    | Dropping                 // marked the session's browser unhealthy, dropSession next
    | Releasing(b: Browser)    // about to send b back

  /** `session` is this worker's entry in the renderer's session map. */
  datatype Client = Client(pc: ClientPc, session: Option<Browser>)

  datatype State = State(pool: PoolState, clients: seq<Client>)

  function Init(size: nat, clients: nat): State {
    State(Fresh(size), seq(clients, _ => Client(Outside, None)))
  }

  datatype Action =
    | FindSession(w: nat)        // ensureSession: a healthy session is there
    | MissSession(w: nat)        // ensureSession: it is not
    | ReceiveHealthy(w: nat)
    | ReceiveUnhealthy(w: nat)
    | LaunchSucceeds(w: nat)
    | LaunchFails(w: nat)
    | GiveUp(w: nat)             // timeout or cancellation in Acquire
    | ViewportSet(w: nat)
    | ViewportFails(w: nat)
    | FrameDone(w: nat)
    | FrameFails(w: nat)         // MarkUnhealthy
    | Drop(w: nat)               // dropSession takes the session out of the map
    | CloseSession(w: nat)       // Renderer.Close takes it out
    | SendBack(w: nat)           // Release

  predicate Healthy(p: PoolState, b: Browser) {
    b !in p.unhealthy
  }

  /** Client c can do action a while the pool is p. */
  predicate CanMove(p: PoolState, c: Client, a: Action) {
    match a
    case FindSession(_) => c.pc.Outside? && c.session.Some? && Healthy(p, c.session.value)
    case MissSession(_) => c.pc.Outside? && !(c.session.Some? && Healthy(p, c.session.value))
    case ReceiveHealthy(_) => c.pc.Acquiring? && p.available != [] && Healthy(p, p.available[0])
    case ReceiveUnhealthy(_) => c.pc.Acquiring? && p.available != [] && !Healthy(p, p.available[0])
    case LaunchSucceeds(_) => c.pc.Replacing? && 0 <= c.pc.b.id < |p.all|
    case LaunchFails(_) => c.pc.Replacing? && |p.available| < |p.all|
    case GiveUp(_) => c.pc.Acquiring?
    case ViewportSet(_) => c.pc.Preparing?
    case ViewportFails(_) => c.pc.Preparing?
    case FrameDone(_) => c.pc.Rendering?
    case FrameFails(_) => c.pc.Rendering? && c.session.Some?
    case Drop(_) => c.pc.Dropping?
    case CloseSession(_) => c.pc.Outside? && c.session.Some?
    case SendBack(_) => c.pc.Releasing? && |p.available| < |p.all|
  }

  /** The pool and the client after an action of client c. */
  function Moved(p: PoolState, c: Client, a: Action): (PoolState, Client)
    requires CanMove(p, c, a)
  {
    match a
    case FindSession(_) => (p, c.(pc := Rendering))
    case MissSession(_) => (p, c.(pc := Acquiring))
    case ReceiveHealthy(_) => (TakeHead(p), c.(pc := Preparing(p.available[0])))
    case ReceiveUnhealthy(_) => (TakeHead(p), c.(pc := Replacing(p.available[0])))
    case LaunchSucceeds(_) => (Replace(p, c.pc.b), c.(pc := Preparing(Browser(c.pc.b.id, p.generations))))
    case LaunchFails(_) => (PutBack(p, c.pc.b), c.(pc := Acquiring))
    case GiveUp(_) => (p, c.(pc := Outside))
    case ViewportSet(_) => (p, Client(Rendering, Some(c.pc.b)))
    case ViewportFails(_) => (p, c.(pc := Releasing(c.pc.b)))
    case FrameDone(_) => (p, c.(pc := Outside))
    case FrameFails(_) => (Mark(p, c.session.value), c.(pc := Dropping))
    case Drop(_) => (p, if c.session.Some? then Client(Releasing(c.session.value), None) else c.(pc := Outside))
    case CloseSession(_) => (p, Client(Releasing(c.session.value), None))
    case SendBack(_) => (PutBack(p, c.pc.b), c.(pc := Outside))
  }

  predicate Enabled(s: State, a: Action) {
    a.w < |s.clients| && CanMove(s.pool, s.clients[a.w], a)
  }

  function Apply(s: State, a: Action): State
    requires Enabled(s, a)
  {
    var m := Moved(s.pool, s.clients[a.w], a);
    State(m.0, s.clients[a.w := m.1])
  }

  // ----- Who holds what -----

  function InHand(pc: ClientPc): Option<Browser> {
    match pc
    case Replacing(b) => Some(b)
    case Preparing(b) => Some(b)
    case Releasing(b) => Some(b)
    case _ => None
  }

  /** The browsers a client has: the one in hand and the one in its session. */
  function HeldBy(c: Client): multiset<Browser> {
    if c.session.None? then
      if InHand(c.pc).None? then multiset{} else multiset{InHand(c.pc).value}
    else
      if InHand(c.pc).None? then multiset{c.session.value} else multiset{InHand(c.pc).value, c.session.value}
  }

  /** All that the clients hold. */
  function Held(clients: seq<Client>): multiset<Browser> {
    Union(HeldBy, clients)
  }

  // ----- The invariant -----

  /** What a client's position says about its session and the health of its browser. */
  predicate ClientOk(p: PoolState, c: Client) {
    && (c.pc.Acquiring? || c.pc.Replacing? || c.pc.Preparing? || c.pc.Releasing? ==> c.session.None?)
    && (c.pc.Rendering? || c.pc.Dropping? ==> c.session.Some?)
    && (c.session.Some? && !c.pc.Dropping? ==> Healthy(p, c.session.value))
    && (c.pc.Preparing? ==> Healthy(p, c.pc.b))
  }

  ghost predicate Inv(s: State, size: nat) {
    && |s.pool.all| == size
    && Registered(s.pool)
    && Conserved(s.pool, Held(s.clients))
    && forall w :: 0 <= w < |s.clients| ==> ClientOk(s.pool, s.clients[w])
  }

  lemma {:induction false} NothingHeldAtFirst(n: nat)
    ensures Held(seq(n, _ => Client(Outside, None))) == multiset{}
  {
    if n > 0 {
      NothingHeldAtFirst(n - 1);
      var clients := seq(n, _ => Client(Outside, None));
      assert clients[..n - 1] == seq(n - 1, _ => Client(Outside, None));
    }
  }

  lemma InitInv(size: nat, clients: nat)
    ensures Inv(Init(size, clients), size)
  {
    FreshPool(size);
    NothingHeldAtFirst(clients);
  }

  /** The pool p and client c keep their part of the invariant, `others` being in other hands. */
  ghost predicate Balanced(p: PoolState, others: multiset<Browser>, c: Client) {
    Registered(p) && Conserved(p, others + HeldBy(c)) && ClientOk(p, c)
  }

  lemma ReceiveConserves(p: PoolState, others: multiset<Browser>, c: Client, a: Action)
    requires CanMove(p, c, a) && Balanced(p, others, c)
    requires a.ReceiveHealthy? || a.ReceiveUnhealthy?
    ensures var (q, d) := Moved(p, c, a); Balanced(q, others, d)
  {
    hide Registered, Conserved;
    var (q, d) := Moved(p, c, a);
    TakeConserves(p, others + HeldBy(c));
    assert others + HeldBy(c) + multiset{p.available[0]} == others + HeldBy(d);
  }

  lemma LaunchConserves(p: PoolState, others: multiset<Browser>, c: Client, a: Action)
    requires CanMove(p, c, a) && Balanced(p, others, c) && a.LaunchSucceeds?
    ensures var (q, d) := Moved(p, c, a); Balanced(q, others, d)
  {
    hide Registered, Conserved, HeldBy;
    var (q, d) := Moved(p, c, a);
    HeldOneInHand(c);
    HeldOneInHand(d);
    TakeOne(others, c.pc.b);
    ReplaceConserves(p, others + HeldBy(c), c.pc.b);
  }

  lemma SendConserves(p: PoolState, others: multiset<Browser>, c: Client, a: Action)
    requires CanMove(p, c, a) && Balanced(p, others, c) && (a.LaunchFails? || a.SendBack?)
    ensures var (q, d) := Moved(p, c, a); Balanced(q, others, d)
  {
    hide Registered, Conserved, HeldBy;
    var (q, d) := Moved(p, c, a);
    HeldOneInHand(c);
    HeldNone(d);
    ReturnConserves(p, others, c.pc.b);
  }

  lemma FailureConserves(p: PoolState, others: multiset<Browser>, c: Client, a: Action)
    requires CanMove(p, c, a) && Balanced(p, others, c) && a.FrameFails?
    ensures var (q, d) := Moved(p, c, a); Balanced(q, others, d) && c.session.value !in others
  {
    hide Registered, Conserved, HeldBy;
    HeldOneInSession(c);
    HeldOneInSession(c.(pc := Dropping));
    TakeOne(others, c.session.value);
    MarkConserves(p, others + HeldBy(c), c.session.value, others);
  }

  lemma TakeOne(others: multiset<Browser>, b: Browser)
    ensures others + multiset{b} - multiset{b} == others && b in others + multiset{b}
  {
  }

  lemma HeldOneInHand(c: Client)
    requires c.session.None? && InHand(c.pc).Some?
    ensures HeldBy(c) == multiset{InHand(c.pc).value}
  {
  }

  lemma HeldOneInSession(c: Client)
    requires c.session.Some? && InHand(c.pc).None?
    ensures HeldBy(c) == multiset{c.session.value}
  {
  }

  lemma HeldNone(c: Client)
    requires c.session.None? && InHand(c.pc).None?
    ensures HeldBy(c) == multiset{}
  {
  }

  function TheBrowser(c: Client): Option<Browser> {
    if c.session.Some? then c.session else InHand(c.pc)
  }

  /** A client in good order has one browser or none. */
  lemma HeldShape(p: PoolState, c: Client)
    requires ClientOk(p, c)
    ensures HeldBy(c) == if TheBrowser(c).Some? then multiset{TheBrowser(c).value} else multiset{}
  {
    hide HeldBy;
    if c.session.Some? {
      HeldOneInSession(c);
    } else if InHand(c.pc).Some? {
      HeldOneInHand(c);
    } else {
      HeldNone(c);
    }
  }

  predicate IsLocal(a: Action) {
    a.FindSession? || a.MissSession? || a.GiveUp? || a.ViewportSet? || a.ViewportFails?
    || a.FrameDone? || a.Drop? || a.CloseSession?
  }

  /** Steps that leave the pool alone only move a browser between hand and session. */
  lemma LocalKeepsBrowser(p: PoolState, c: Client, a: Action)
    requires CanMove(p, c, a) && ClientOk(p, c) && IsLocal(a)
    ensures var (q, d) := Moved(p, c, a); q == p && ClientOk(p, d) && TheBrowser(d) == TheBrowser(c)
  {
    hide Healthy;
  }

  lemma LocalConserves(p: PoolState, others: multiset<Browser>, c: Client, a: Action)
    requires CanMove(p, c, a) && Balanced(p, others, c) && IsLocal(a)
    ensures var (q, d) := Moved(p, c, a); Balanced(q, others, d)
  {
    hide Registered, Conserved, HeldBy, ClientOk, CanMove, Moved, TheBrowser;
    LocalKeepsBrowser(p, c, a);
    HeldShape(p, c);
    HeldShape(p, Moved(p, c, a).1);
  }

  /** One client moves: the pool stays conserved against what the others hold and it now holds. */
  lemma MoveConserves(p: PoolState, others: multiset<Browser>, c: Client, a: Action)
    requires CanMove(p, c, a) && Balanced(p, others, c)
    ensures var (q, d) := Moved(p, c, a);
            && Balanced(q, others, d) && |q.all| == |p.all|
            && forall b :: b in others && Healthy(p, b) ==> Healthy(q, b)
  {
    hide Balanced, HeldBy;
    match a
    case ReceiveHealthy(_) => ReceiveConserves(p, others, c, a);
    case ReceiveUnhealthy(_) => ReceiveConserves(p, others, c, a);
    case LaunchSucceeds(_) => LaunchConserves(p, others, c, a);
    case LaunchFails(_) => SendConserves(p, others, c, a);
    case SendBack(_) => SendConserves(p, others, c, a);
    case FrameFails(_) => FailureConserves(p, others, c, a);
    case _ => LocalConserves(p, others, c, a);
  }

  /** Every step of every client keeps every browser accounted for. */
  lemma StepInv(s: State, a: Action, size: nat)
    requires Inv(s, size) && Enabled(s, a)
    ensures Inv(Apply(s, a), size)
  {
    var w, c := a.w, s.clients[a.w];
    var t := Apply(s, a);
    var others := Others(HeldBy, s.clients, w);
    UnionSplit(HeldBy, s.clients, w);
    UnionSplit(HeldBy, t.clients, w);
    OthersUnchanged(HeldBy, s.clients, w, t.clients[w]);
    MoveConserves(s.pool, others, c, a);
    forall v | 0 <= v < |t.clients| ensures ClientOk(t.pool, t.clients[v]) {
      if v != w {
        OtherIncluded(HeldBy, s.clients, w, v);
        assert ClientOk(s.pool, s.clients[v]);
        StillOk(s.pool, t.pool, s.clients[v], others);
      }
    }
  }

  lemma StillOk(p: PoolState, q: PoolState, c: Client, others: multiset<Browser>)
    requires ClientOk(p, c) && HeldBy(c) <= others
    requires forall b :: b in others && Healthy(p, b) ==> Healthy(q, b)
    ensures ClientOk(q, c)
  {
    if c.session.Some? {
      assert c.session.value in HeldBy(c);
    }
    if c.pc.Preparing? {
      assert c.pc.b in HeldBy(c);
    }
  }

  // ----- Runs -----

  predicate IsRun(s: State, actions: seq<Action>)
    decreases |actions|
  {
    actions == [] || (Enabled(s, actions[0]) && IsRun(Apply(s, actions[0]), actions[1..]))
  }

  function RunEnd(s: State, actions: seq<Action>): State
    requires IsRun(s, actions)
    decreases |actions|
  {
    if actions == [] then s else RunEnd(Apply(s, actions[0]), actions[1..])
  }

  ghost predicate Reachable(size: nat, clients: nat, s: State) {
    exists actions :: IsRun(Init(size, clients), actions) && RunEnd(Init(size, clients), actions) == s
  }

  lemma {:induction false} RunInv(s: State, actions: seq<Action>, size: nat)
    requires Inv(s, size) && IsRun(s, actions)
    ensures Inv(RunEnd(s, actions), size)
    ensures |RunEnd(s, actions).clients| == |s.clients|
    decreases |actions|
  {
    if actions != [] {
      StepInv(s, actions[0], size);
      hide Enabled, Apply, Inv;
      RunInv(Apply(s, actions[0]), actions[1..], size);
    }
  }

  lemma ReachableInv(size: nat, clients: nat, s: State)
    requires Reachable(size, clients, s)
    ensures Inv(s, size) && |s.clients| == clients
  {
    var actions :| IsRun(Init(size, clients), actions) && RunEnd(Init(size, clients), actions) == s;
    InitInv(size, clients);
    RunInv(Init(size, clients), actions, size);
  }

  /**
   Conservation and exclusivity, in every reachable state: the browsers available, in
   somebody's hands and in sessions are exactly all[0..size-1], each once; so every one of
   them is current, and no two clients share one.
   */
  lemma BrowsersConserved(size: nat, clients: nat, s: State)
    requires Reachable(size, clients, s)
    ensures multiset(s.pool.available) + Held(s.clients) == multiset(s.pool.all)
    ensures |s.pool.all| == size && forall i :: 0 <= i < size ==> s.pool.all[i].id == i
    ensures forall b :: b in s.pool.available || b in Held(s.clients) ==> 0 <= b.id < size && s.pool.all[b.id] == b
    ensures forall v, w, b :: 0 <= v < w < |s.clients| && b in HeldBy(s.clients[v]) ==> b !in HeldBy(s.clients[w])
  {
    ReachableInv(size, clients, s);
    HeldCurrent(s.pool, Held(s.clients), Held(s.clients));
    forall b | b in s.pool.available ensures 0 <= b.id < size && s.pool.all[b.id] == b {
      HeldOnce(s.pool, Held(s.clients), b);
    }
    forall v, w, b | 0 <= v < w < |s.clients| && b in HeldBy(s.clients[v]) ensures b !in HeldBy(s.clients[w]) {
      UnionSplit(HeldBy, s.clients, w);
      OtherIncluded(HeldBy, s.clients, w, v);
      HeldOnce(s.pool, Held(s.clients), b);
    }
  }

  /** A client about to send a browser into the channel, in Acquire or in Release, never blocks. */
  lemma SendsNeverBlock(size: nat, clients: nat, s: State, w: nat)
    requires Reachable(size, clients, s) && w < |s.clients|
    requires s.clients[w].pc.Replacing? || s.clients[w].pc.Releasing?
    ensures |s.pool.available| < size
    ensures if s.clients[w].pc.Replacing? then Enabled(s, LaunchFails(w)) && Enabled(s, LaunchSucceeds(w))
            else Enabled(s, SendBack(w))
  {
    ReachableInv(size, clients, s);
    RoomToSend(size, s, w);
  }

  lemma RoomToSend(size: nat, s: State, w: nat)
    requires Inv(s, size) && w < |s.clients|
    requires s.clients[w].pc.Replacing? || s.clients[w].pc.Releasing?
    ensures |s.pool.available| < size
    ensures if s.clients[w].pc.Replacing? then Enabled(s, LaunchFails(w)) && Enabled(s, LaunchSucceeds(w))
            else Enabled(s, SendBack(w))
  {
    UnionSplit(HeldBy, s.clients, w);
    var b := s.clients[w].pc.b;
    assert b in HeldBy(s.clients[w]);
    RoomForHeld(s.pool, Held(s.clients), b);
    HeldOnce(s.pool, Held(s.clients), b);
  }

  /** A frame is only ever rendered on a healthy browser, and taking a new session never leaks an old one. */
  lemma RendersOnHealthy(size: nat, clients: nat, s: State, w: nat)
    requires Reachable(size, clients, s) && w < |s.clients|
    ensures s.clients[w].pc.Rendering? ==> s.clients[w].session.Some? && Healthy(s.pool, s.clients[w].session.value)
    ensures Enabled(s, MissSession(w)) || Enabled(s, ViewportSet(w)) ==> s.clients[w].session.None?
  {
    ReachableInv(size, clients, s);
    assert ClientOk(s.pool, s.clients[w]);
  }

  lemma {:induction false} HeldSize(p: PoolState, clients: seq<Client>)
    requires forall w :: 0 <= w < |clients| ==> ClientOk(p, clients[w])
    ensures |Held(clients)| <= |clients|
  {
    if clients != [] {
      HeldSize(p, clients[..|clients| - 1]);
      assert ClientOk(p, clients[|clients| - 1]);
      assert |HeldBy(clients[|clients| - 1])| <= 1;
    }
  }

  /** With no more clients than browsers, nobody ever waits in Acquire: the channel has one. */
  lemma EnoughBrowsersMeansNoWait(size: nat, clients: nat, s: State, w: nat)
    requires Reachable(size, clients, s) && clients <= size && w < |s.clients| && s.clients[w].pc.Acquiring?
    ensures s.pool.available != []
  {
    ReachableInv(size, clients, s);
    hide Reachable, ClientOk;
    FewHeld(s, w);
    AvailableIs(s.pool, Held(s.clients));
  }

  ghost predicate NobodyWaits(size: nat, clients: nat) {
    forall s, w :: Reachable(size, clients, s) && 0 <= w < |s.clients| && s.clients[w].pc.Acquiring? ==>
      s.pool.available != []
  }

  /** With more clients than browsers somebody can wait: the bound is exact. */
  lemma NobodyWaitsIff(size: nat, clients: nat)
    ensures NobodyWaits(size, clients) <==> clients <= size
  {
    if clients <= size {
      forall s, w | Reachable(size, clients, s) && 0 <= w < |s.clients| && s.clients[w].pc.Acquiring?
        ensures s.pool.available != []
      {
        EnoughBrowsersMeansNoWait(size, clients, s, w);
      }
    } else {
      var s := SomebodyWaits(size, clients);
    }
  }

  /** The first n clients have taken the first n browsers. */
  ghost predicate Taken(size: nat, clients: nat, s: State, n: nat) {
    && n <= size < clients == |s.clients|
    && s.pool == Fresh(size).(available := Fresh(size).available[n..])
    && forall w :: n <= w < clients ==> s.clients[w] == Client(Outside, None)
  }

  lemma SomebodyWaits(size: nat, clients: nat) returns (s: State)
    requires clients > size
    ensures Reachable(size, clients, s) && size < |s.clients| && s.clients[size].pc.Acquiring? && s.pool.available == []
  {
    var all := Init(size, clients);
    assert all.pool.available == all.pool.available[0..];
    var taking := TakeAll(size, clients, all, 0);
    var t := RunEnd(all, taking);
    s := Apply(t, MissSession(size));
    RunCons(t, MissSession(size), []);
    RunAppend(all, taking, [MissSession(size)] + []);
  }

  lemma TakeAll(size: nat, clients: nat, s: State, n: nat) returns (actions: seq<Action>)
    requires Taken(size, clients, s, n)
    ensures IsRun(s, actions) && Taken(size, clients, RunEnd(s, actions), size)
    decreases size - n
  {
    if n == size {
      actions := [];
    } else {
      var asking := Apply(s, MissSession(n));
      var taken := Apply(asking, ReceiveHealthy(n));
      assert taken.pool.available == Fresh(size).available[n + 1..];
      actions := TakeAll(size, clients, taken, n + 1);
      RunCons(asking, ReceiveHealthy(n), actions);
      RunCons(s, MissSession(n), [ReceiveHealthy(n)] + actions);
      actions := [MissSession(n)] + ([ReceiveHealthy(n)] + actions);
    }
  }

  lemma FewHeld(s: State, w: nat)
    requires w < |s.clients| && s.clients[w].pc.Acquiring?
    requires forall v :: 0 <= v < |s.clients| ==> ClientOk(s.pool, s.clients[v])
    ensures |Held(s.clients)| < |s.clients|
  {
    assert ClientOk(s.pool, s.clients[w]);
    UnionSplit(HeldBy, s.clients, w);
    HeldSize(s.pool, s.clients[..w]);
    HeldSize(s.pool, s.clients[w + 1..]);
  }

  lemma AvailableIs(p: PoolState, held: multiset<Browser>)
    requires Conserved(p, held)
    ensures |p.available| + |held| == |p.all|
  {
    assert |multiset(p.available) + held| == |p.available| + |held|;
  }

  /** Once every client is outside without a session, all browsers are back in the channel. */
  lemma AllReturned(size: nat, s: State)
    requires Inv(s, size) && forall w :: 0 <= w < |s.clients| ==> s.clients[w] == Client(Outside, None)
    ensures multiset(s.pool.available) == multiset(s.pool.all) && |s.pool.available| == size
  {
    NothingHeldAtFirst(|s.clients|);
    assert s.clients == seq(|s.clients|, _ => Client(Outside, None));
    assert |multiset(s.pool.available)| == |multiset(s.pool.all)|;
  }

  // ----- Renderer.Close -----

  /** Every action is a step of Close on one of the first n sessions. */
  ghost predicate ClosesOnly(actions: seq<Action>, n: nat) {
    forall k :: 0 <= k < |actions| ==> (actions[k].CloseSession? || actions[k].SendBack?) && actions[k].w < n
  }

  lemma RunCons(s: State, a: Action, rest: seq<Action>)
    requires Enabled(s, a) && IsRun(Apply(s, a), rest)
    ensures IsRun(s, [a] + rest) && RunEnd(s, [a] + rest) == RunEnd(Apply(s, a), rest)
  {
    hide Enabled, Apply;
    assert ([a] + rest)[1..] == rest;
  }

  lemma {:induction false} RunAppend(s: State, first: seq<Action>, second: seq<Action>)
    requires IsRun(s, first) && IsRun(RunEnd(s, first), second)
    ensures IsRun(s, first + second) && RunEnd(s, first + second) == RunEnd(RunEnd(s, first), second)
    decreases |first|
  {
    hide Enabled, Apply;
    if first == [] {
      assert first + second == second;
    } else {
      RunAppend(Apply(s, first[0]), first[1..], second);
      RunCons(s, first[0], first[1..] + second);
      assert [first[0]] + (first[1..] + second) == first + second;
    }
  }

  lemma ReleaseOne(size: nat, s: State, w: nat)
    requires Inv(s, size) && w < |s.clients| && s.clients[w].pc.Releasing?
    ensures Enabled(s, SendBack(w)) && Inv(Apply(s, SendBack(w)), size)
    ensures Apply(s, SendBack(w)).clients == s.clients[w := Client(Outside, None)]
    ensures Apply(s, SendBack(w)).pool.unhealthy == s.pool.unhealthy
  {
    assert ClientOk(s.pool, s.clients[w]);
    RoomToSend(size, s, w);
    StepInv(s, SendBack(w), size);
  }

  lemma TakeOutOne(size: nat, s: State, w: nat)
    requires Inv(s, size) && w < |s.clients| && s.clients[w].pc.Outside? && s.clients[w].session.Some?
    ensures Enabled(s, CloseSession(w)) && Inv(Apply(s, CloseSession(w)), size)
    ensures Apply(s, CloseSession(w)).clients == s.clients[w := Client(Releasing(s.clients[w].session.value), None)]
    ensures Apply(s, CloseSession(w)).pool.unhealthy == s.pool.unhealthy
  {
    StepInv(s, CloseSession(w), size);
  }

  /** Closing one session: out of the map, back into the channel. */
  lemma CloseOne(size: nat, s: State, w: nat) returns (actions: seq<Action>)
    requires Inv(s, size) && w < |s.clients|
    requires s.clients[w].pc.Outside? || s.clients[w].pc.Releasing?
    ensures IsRun(s, actions) && ClosesOnly(actions, w + 1)
    ensures Inv(RunEnd(s, actions), size) && RunEnd(s, actions).clients == s.clients[w := Client(Outside, None)]
    ensures RunEnd(s, actions).pool.unhealthy == s.pool.unhealthy
    decreases if s.clients[w].pc.Outside? then 1 else 0
  {
    hide Inv, Enabled, Apply;
    if s.clients[w] == Client(Outside, None) {
      actions := [];
    } else if s.clients[w].pc.Outside? {
      TakeOutOne(size, s, w);
      actions := CloseOne(size, Apply(s, CloseSession(w)), w);
      RunCons(s, CloseSession(w), actions);
      actions := [CloseSession(w)] + actions;
    } else {
      ReleaseOne(size, s, w);
      RunCons(s, SendBack(w), []);
      actions := [SendBack(w)] + [];
    }
  }

  /** The loop of Close gets through without waiting for anybody, whatever other clients hold. */
  lemma {:induction false} CloseAll(size: nat, s: State, n: nat) returns (actions: seq<Action>)
    requires Inv(s, size) && n <= |s.clients|
    requires forall w :: 0 <= w < n ==> s.clients[w].pc.Outside? || s.clients[w].pc.Releasing?
    ensures IsRun(s, actions) && ClosesOnly(actions, n) && Inv(RunEnd(s, actions), size)
    ensures var t := RunEnd(s, actions);
            && |t.clients| == |s.clients| && (forall w :: 0 <= w < n ==> t.clients[w] == Client(Outside, None))
            && (forall w :: n <= w < |s.clients| ==> t.clients[w] == s.clients[w])
            && t.pool.unhealthy == s.pool.unhealthy
    decreases n, 1
  {
    if n == 0 {
      actions := [];
    } else {
      actions := CloseLast(size, s, n);
    }
  }

  lemma CloseLast(size: nat, s: State, n: nat) returns (actions: seq<Action>)
    requires Inv(s, size) && 0 < n <= |s.clients|
    requires forall w :: 0 <= w < n ==> s.clients[w].pc.Outside? || s.clients[w].pc.Releasing?
    ensures IsRun(s, actions) && ClosesOnly(actions, n) && Inv(RunEnd(s, actions), size)
    ensures var t := RunEnd(s, actions);
            && |t.clients| == |s.clients| && (forall w :: 0 <= w < n ==> t.clients[w] == Client(Outside, None))
            && (forall w :: n <= w < |s.clients| ==> t.clients[w] == s.clients[w])
            && t.pool.unhealthy == s.pool.unhealthy
    decreases n, 0
  {
    hide Inv, IsRun, RunEnd, ClosesOnly;
    var first := CloseOne(size, s, n - 1);
    var rest := CloseAll(size, RunEnd(s, first), n - 1);
    RunAppend(s, first, rest);
    ClosesBoth(first, rest, n);
    actions := first + rest;
  }

  lemma ClosesBoth(first: seq<Action>, rest: seq<Action>, n: nat)
    requires n > 0 && ClosesOnly(first, n) && ClosesOnly(rest, n - 1)
    ensures ClosesOnly(first + rest, n)
  {
  }

  /** So when all workers have come back, closing every session returns every browser. */
  lemma CloseReturnsEveryBrowser(size: nat, clients: nat, s: State) returns (actions: seq<Action>)
    requires Reachable(size, clients, s) && forall w :: 0 <= w < |s.clients| ==> s.clients[w].pc.Outside?
    ensures IsRun(s, actions) && ClosesOnly(actions, clients)
    ensures var t := RunEnd(s, actions);
            && (forall w :: 0 <= w < |t.clients| ==> t.clients[w] == Client(Outside, None))
            && |t.pool.available| == size && multiset(t.pool.available) == multiset(t.pool.all)
  {
    ReachableInv(size, clients, s);
    actions := CloseAll(size, s, clients);
    AllReturned(size, RunEnd(s, actions));
  }

  // ----- A browser whose frame failed is not used again -----

  lemma StepKeepsUnhealthy(s: State, a: Action, b: Browser)
    requires Enabled(s, a) && b in s.pool.unhealthy
    ensures b in Apply(s, a).pool.unhealthy
  {
  }

  lemma {:induction false} RunKeepsUnhealthy(s: State, actions: seq<Action>, b: Browser)
    requires IsRun(s, actions) && b in s.pool.unhealthy
    ensures b in RunEnd(s, actions).pool.unhealthy
    decreases |actions|
  {
    hide Enabled, Apply;
    if actions != [] {
      StepKeepsUnhealthy(s, actions[0], b);
      RunKeepsUnhealthy(Apply(s, actions[0]), actions[1..], b);
    }
  }

  /** Once a frame has failed on a browser, no client ever renders on it again, whatever happens then. */
  lemma FailedBrowserIsRetired(size: nat, s: State, w: nat, actions: seq<Action>)
    requires Inv(s, size) && Enabled(s, FrameFails(w)) && IsRun(Apply(s, FrameFails(w)), actions)
    ensures var b, t := s.clients[w].session.value, RunEnd(Apply(s, FrameFails(w)), actions);
            && !Healthy(t.pool, b)
            && forall v :: 0 <= v < |t.clients| && t.clients[v].pc.Rendering? ==>
                 t.clients[v].session.Some? && t.clients[v].session.value != b
  {
    var b, failed := s.clients[w].session.value, Apply(s, FrameFails(w));
    StepInv(s, FrameFails(w), size);
    assert b in failed.pool.unhealthy;
    hide Apply, Enabled, Registered, Conserved;
    RunKeepsUnhealthy(failed, actions, b);
    RunInv(failed, actions, size);
    assert forall v :: 0 <= v < |RunEnd(failed, actions).clients| ==>
             ClientOk(RunEnd(failed, actions).pool, RunEnd(failed, actions).clients[v]);
  }

  // ----- Pool.Acquire as steps of one client -----

  predicate IsAcquireStep(a: Action, w: nat) {
    a.w == w && (a.ReceiveHealthy? || a.ReceiveUnhealthy? || a.LaunchSucceeds? || a.LaunchFails?)
  }

  /** The state when client w is alone in Acquire and has got as far as the outcome says. */
  function AfterAcquire(s: State, w: nat, q: PoolState, r: Option<Browser>): State
    requires w < |s.clients|
  {
    State(q, s.clients[w := s.clients[w].(pc := if r.Some? then Preparing(r.value) else Acquiring)])
  }

  lemma HeadTaken(s: State, w: nat)
    requires w < |s.clients| && s.clients[w].pc.Acquiring?
    requires s.pool.available != [] && s.pool.available[0] !in s.pool.unhealthy
    ensures Enabled(s, ReceiveHealthy(w))
    ensures Apply(s, ReceiveHealthy(w)) == AfterAcquire(s, w, TakeHead(s.pool), Some(s.pool.available[0]))
  {
  }

  lemma HeadReplaced(s: State, w: nat, t: State)
    requires w < |s.clients| && s.clients[w].pc.Acquiring?
    requires Enabled(s, ReceiveUnhealthy(w)) && t == Apply(s, ReceiveUnhealthy(w))
    requires Enabled(t, LaunchSucceeds(w)) && Enabled(t, LaunchFails(w))
    ensures var p, b := TakeHead(s.pool), s.pool.available[0];
            && 0 <= b.id < |p.all|
            && Apply(t, LaunchSucceeds(w)) == AfterAcquire(s, w, Replace(p, b), Some(Browser(b.id, p.generations)))
            && Apply(t, LaunchFails(w)) == AfterAcquire(s, w, PutBack(p, b), None)
  {
    hide Replace, PutBack;
  }

  lemma HeadRefused(s: State, size: nat, w: nat) returns (t: State)
    requires Inv(s, size) && w < |s.clients| && s.clients[w].pc.Acquiring?
    requires s.pool.available != [] && s.pool.available[0] in s.pool.unhealthy
    ensures Enabled(s, ReceiveUnhealthy(w)) && t == Apply(s, ReceiveUnhealthy(w))
    ensures Enabled(t, LaunchSucceeds(w)) && Enabled(t, LaunchFails(w))
    ensures Inv(Apply(t, LaunchFails(w)), size)
  {
    t := Apply(s, ReceiveUnhealthy(w));
    StepInv(s, ReceiveUnhealthy(w), size);
    hide Inv;
    RoomToSend(size, t, w);
    StepInv(t, LaunchFails(w), size);
  }

  lemma AfterAfterAcquire(s: State, w: nat, p: PoolState, q: PoolState, r: Option<Browser>)
    requires w < |s.clients| && s.clients[w].pc.Acquiring?
    ensures AfterAcquire(s, w, s.pool, None) == s
    ensures var t := AfterAcquire(s, w, p, None);
            && t.pool == p && |t.clients| == |s.clients| && t.clients[w].pc.Acquiring?
            && AfterAcquire(t, w, q, r) == AfterAcquire(s, w, q, r)
  {
    assert s.clients[w := s.clients[w].(pc := Acquiring)] == s.clients;
  }

  /**
   What Pool.Acquire does for one caller is what the steps of one client do while the others
   stand still: the same pool and the same browser, whichever launches succeed.
   */
  lemma {:induction false} AcquireIsRun(s: State, size: nat, w: nat, launches: seq<bool>) returns (actions: seq<Action>)
    requires Inv(s, size) && w < |s.clients| && s.clients[w].pc.Acquiring?
    ensures IdsKnown(s.pool) && IsRun(s, actions)
    ensures var (q, r) := Acquired(s.pool, launches); RunEnd(s, actions) == AfterAcquire(s, w, q, r)
    ensures forall a :: a in actions ==> IsAcquireStep(a, w)
    decreases |launches|
  {
    ConservedIdsKnown(s.pool, Held(s.clients));
    var (q, r) := Acquired(s.pool, launches);
    hide Inv, IdsKnown, Enabled, Apply, AfterAcquire, TakeHead, PutBack, Replace;
    AfterAfterAcquire(s, w, s.pool, q, r);
    actions := [];
    if s.pool.available != [] {
      if s.pool.available[0] !in s.pool.unhealthy {
        HeadTaken(s, w);
        RunCons(s, ReceiveHealthy(w), []);
        actions := [ReceiveHealthy(w)] + [];
      } else if launches != [] {
        var t := HeadRefused(s, size, w);
        HeadReplaced(s, w, t);
        if launches[0] {
          RunCons(t, LaunchSucceeds(w), []);
          RunCons(s, ReceiveUnhealthy(w), [LaunchSucceeds(w)] + []);
          actions := [ReceiveUnhealthy(w)] + ([LaunchSucceeds(w)] + []);
        } else {
          var u := Apply(t, LaunchFails(w));
          AfterAfterAcquire(s, w, PutBack(TakeHead(s.pool), s.pool.available[0]), q, r);
          var rest := AcquireIsRun(u, size, w, launches[1..]);
          RunCons(t, LaunchFails(w), rest);
          RunCons(s, ReceiveUnhealthy(w), [LaunchFails(w)] + rest);
          actions := [ReceiveUnhealthy(w)] + ([LaunchFails(w)] + rest);
        }
      }
    }
  }
}

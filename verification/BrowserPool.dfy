/**
 The browser pool (internal/browser/pool.go): a fixed number of browsers, handed out one at
 a time and replaced when a render may have spoiled them.
 */
module BrowserPool {
  import opened Wrappers

  /** One running Chrome.  A replacement keeps the id and gets a new generation. */
  datatype Browser = Browser(id: int, generation: nat)

  /** The fields of a Pool; `unhealthy` are the browsers whose healthy flag is off. */
  datatype PoolState = PoolState(available: seq<Browser>, all: seq<Browser>, unhealthy: set<Browser>,
                                 generations: nat)

  function Fresh(size: nat): PoolState {
    var browsers := seq(size, i => Browser(i, 0));
    PoolState(browsers, browsers, {}, 1)
  }

  function TakeHead(p: PoolState): PoolState
    requires p.available != []
  {
    p.(available := p.available[1..])
  }

  function PutBack(p: PoolState, b: Browser): PoolState {
    p.(available := p.available + [b])
  }

  /** all[b.id] = replacement */
  function Replace(p: PoolState, b: Browser): PoolState
    requires 0 <= b.id < |p.all|
  {
    p.(all := p.all[b.id := Browser(b.id, p.generations)], generations := p.generations + 1)
  }

  function Mark(p: PoolState, b: Browser): PoolState {
    p.(unhealthy := p.unhealthy + {b})
  }

  /** Slot i of `all` holds a browser numbered i, and no generation is used twice. */
  ghost predicate Registered(p: PoolState) {
    && (forall i :: 0 <= i < |p.all| ==> p.all[i].id == i && p.all[i].generation < p.generations)
    && (forall b :: b in p.unhealthy ==> b.generation < p.generations)
  }

  /** Every current browser is either available or one of `held`, once. */
  ghost predicate Conserved(p: PoolState, held: multiset<Browser>) {
    multiset(p.available) + held == multiset(p.all)
  }

  lemma AllDistinct(p: PoolState, b: Browser)
    requires Registered(p) && b in multiset(p.all)
    ensures 0 <= b.id < |p.all| && p.all[b.id] == b && multiset(p.all)[b] == 1
  {
    assert b in p.all;
    var i :| 0 <= i < |p.all| && p.all[i] == b;
    assert p.all == p.all[..i] + [b] + p.all[i + 1..];
    assert b !in p.all[..i] && b !in p.all[i + 1..];
  }

  /** A held or available browser is the current one with its id, and is in one place only. */
  lemma HeldOnce(p: PoolState, held: multiset<Browser>, b: Browser)
    requires Registered(p) && Conserved(p, held) && (b in held || b in p.available)
    ensures 0 <= b.id < |p.all| && p.all[b.id] == b
    ensures held[b] + multiset(p.available)[b] == 1
  {
    assert b in multiset(p.available) + held;
    AllDistinct(p, b);
  }

  /** A send into `available` by someone who holds a browser finds room. */
  lemma RoomForHeld(p: PoolState, held: multiset<Browser>, b: Browser)
    requires Conserved(p, held) && b in held
    ensures |p.available| < |p.all|
  {
    assert |multiset(p.available) + held| == |p.available| + |held|;
    assert |held| >= 1;
  }

  lemma TakeConserves(p: PoolState, held: multiset<Browser>)
    requires Conserved(p, held) && p.available != []
    ensures Conserved(TakeHead(p), held + multiset{p.available[0]})
    ensures Registered(p) ==> Registered(TakeHead(p))
  {
    assert p.available == [p.available[0]] + p.available[1..];
  }

  lemma PutBackConserves(p: PoolState, held: multiset<Browser>, b: Browser)
    requires Conserved(p, held) && b in held
    ensures Conserved(PutBack(p, b), held - multiset{b})
    ensures Registered(p) ==> Registered(PutBack(p, b))
  {
  }

  lemma ReturnConserves(p: PoolState, others: multiset<Browser>, b: Browser)
    requires Registered(p) && Conserved(p, others + multiset{b})
    ensures Registered(PutBack(p, b)) && Conserved(PutBack(p, b), others + multiset{})
  {
    assert multiset(p.available + [b]) == multiset(p.available) + multiset{b};
  }

  /** Marking a browser moves nothing and touches nobody else's browser. */
  lemma MarkConserves(p: PoolState, held: multiset<Browser>, b: Browser, others: multiset<Browser>)
    requires Registered(p) && Conserved(p, held) && b in held && others == held - multiset{b}
    ensures Registered(Mark(p, b)) && Conserved(Mark(p, b), held) && b !in others
  {
    HeldOnce(p, held, b);
  }

  lemma ReplaceConserves(p: PoolState, held: multiset<Browser>, b: Browser)
    requires Registered(p) && Conserved(p, held) && b in held
    ensures 0 <= b.id < |p.all|
    ensures Registered(Replace(p, b))
            && Conserved(Replace(p, b), held - multiset{b} + multiset{Browser(b.id, p.generations)})
    ensures Browser(b.id, p.generations) !in p.unhealthy
  {
    HeldOnce(p, held, b);
    var replacement := Browser(b.id, p.generations);
    assert p.all == p.all[..b.id] + [b] + p.all[b.id + 1..];
    assert Replace(p, b).all == p.all[..b.id] + [replacement] + p.all[b.id + 1..];
  }

  /** Taking the head and putting it back at the end loses nothing, and finds room. */
  lemma FailedReplacement(p: PoolState, held: multiset<Browser>)
    requires Registered(p) && Conserved(p, held) && p.available != []
    ensures var q := PutBack(TakeHead(p), p.available[0]);
            Registered(q) && Conserved(q, held) && |q.available| <= |p.all|
  {
    var b := p.available[0];
    TakeConserves(p, held);
    RoomForHeld(TakeHead(p), held + multiset{b}, b);
    PutBackConserves(TakeHead(p), held + multiset{b}, b);
    assert held + multiset{b} - multiset{b} == held;
  }

  /** Taking the head and replacing it gives a healthy browser in the same slot. */
  lemma Replacement(p: PoolState, held: multiset<Browser>)
    requires Registered(p) && Conserved(p, held) && p.available != []
    ensures var b, replacement := p.available[0], Browser(p.available[0].id, p.generations);
            && 0 <= b.id < |p.all|
            && Registered(Replace(TakeHead(p), b)) && Conserved(Replace(TakeHead(p), b), held + multiset{replacement})
            && replacement !in p.unhealthy
  {
    var b, replacement := p.available[0], Browser(p.available[0].id, p.generations);
    TakeConserves(p, held);
    ReplaceConserves(TakeHead(p), held + multiset{b}, b);
    assert held + multiset{b} - multiset{b} + multiset{replacement} == held + multiset{replacement};
  }

  ghost predicate IdsKnown(p: PoolState) {
    forall i :: 0 <= i < |p.available| ==> 0 <= p.available[i].id < |p.all|
  }

  lemma ConservedIdsKnown(p: PoolState, held: multiset<Browser>)
    requires Registered(p) && Conserved(p, held)
    ensures IdsKnown(p)
  {
    forall i | 0 <= i < |p.available| ensures 0 <= p.available[i].id < |p.all| {
      HeldOnce(p, held, p.available[i]);
    }
  }

  /**
   What Acquire does and returns when nobody else uses the pool.  `launches` says which of the
   replacement launches succeed, in order; when it is used up, or the channel is empty, the
   caller gives up.
   */
  ghost function Acquired(p: PoolState, launches: seq<bool>): (PoolState, Option<Browser>)
    requires IdsKnown(p)
    decreases |launches|
  {
    if p.available == [] then (p, None)
    else
      var b := p.available[0];
      if b !in p.unhealthy then (TakeHead(p), Some(b))
      else if launches == [] then (p, None)
      else if launches[0] then (Replace(TakeHead(p), b), Some(Browser(b.id, p.generations)))
      else Acquired(PutBack(TakeHead(p), b), launches[1..])
  }

  /** None of the first n browsers in the channel, if there are that many, is healthy. */
  ghost predicate NoneHealthy(p: PoolState, n: nat) {
    forall i :: 0 <= i < |p.available| && i < n ==> p.available[i] in p.unhealthy
  }

  lemma NextTurn(p: PoolState, n: nat)
    requires p.available != [] && p.available[0] in p.unhealthy
    ensures NoneHealthy(p, n + 1) <==> NoneHealthy(PutBack(TakeHead(p), p.available[0]), n)
  {
    var q := PutBack(TakeHead(p), p.available[0]);
    if NoneHealthy(p, n + 1) {
      forall i | 0 <= i < |q.available| && i < n ensures q.available[i] in q.unhealthy {
        assert q.available[i] == if i < |p.available| - 1 then p.available[i + 1] else p.available[0];
      }
    }
    if NoneHealthy(q, n) {
      forall i | 0 <= i < |p.available| && i < n + 1 ensures p.available[i] in p.unhealthy {
        assert i > 0 ==> p.available[i] == q.available[i - 1];
      }
    }
  }

  /**
   Acquire comes back empty-handed exactly when the channel is empty, or every launch it has
   time for fails and no browser it gets to see is healthy, which is one more than launches.
   */
  lemma {:induction false} AcquireFailsIff(p: PoolState, launches: seq<bool>)
    requires IdsKnown(p)
    ensures Acquired(p, launches).1.None?
       <==> p.available == [] || (true !in launches && NoneHealthy(p, |launches| + 1))
    decreases |launches|
  {
    if p.available != [] {
      assert NoneHealthy(p, |launches| + 1) ==> p.available[0] in p.unhealthy;
      if p.available[0] in p.unhealthy && launches != [] {
        assert launches == [launches[0]] + launches[1..];
        if !launches[0] {
          AcquireFailsIff(PutBack(TakeHead(p), p.available[0]), launches[1..]);
          NextTurn(p, |launches|);
        }
      }
    }
  }

  /** What it does return is a healthy browser of the channel, or the replacement of an unhealthy one. */
  lemma {:induction false} AcquireGives(p: PoolState, launches: seq<bool>)
    requires IdsKnown(p) && Acquired(p, launches).1.Some?
    ensures var (q, r) := Acquired(p, launches);
            || (r.value in p.available && r.value !in p.unhealthy && q.all == p.all)
            || exists b :: b in p.available && b in p.unhealthy && r.value == Browser(b.id, p.generations)
                           && 0 <= b.id < |p.all| && q.all == p.all[b.id := r.value]
    decreases |launches|
  {
    var b := p.available[0];
    assert b in p.available;
    if b in p.unhealthy && !launches[0] {
      var q := PutBack(TakeHead(p), b);
      assert forall x :: x in q.available ==> x in p.available;
      AcquireGives(q, launches[1..]);
    }
  }

  lemma FreshPool(size: nat)
    ensures Registered(Fresh(size)) && Conserved(Fresh(size), multiset{})
  {
  }

  class Pool {
    var available: seq<Browser>
    var all: seq<Browser>
    var unhealthy: set<Browser>
    var generations: nat
    var closed: bool
    const size: nat

    function State(): PoolState
      reads this
    {
      PoolState(available, all, unhealthy, generations)
    }

    /** A pool without browsers yet. */
    constructor (size: nat)
      ensures State() == PoolState([], [], {}, 1) && !closed && this.size == size
    {
      this.size := size;
      available, all, unhealthy, generations, closed := [], [], {}, 1, false;
    }

    /**
     NewPool, with the default size for zero.  `launchFails` is the first launch to fail, if
     any does; the pool is then closed and the error names the browser.
     */
    static method NewPool(sizeArg: nat, launchFails: Option<nat>) returns (p: Pool, failed: Option<nat>)
      ensures fresh(p) && p.size == if sizeArg == 0 then 4 else sizeArg
      ensures failed.None? <==> launchFails.None? || launchFails.value >= p.size
      ensures failed.None? ==> p.State() == Fresh(p.size) && !p.closed
      ensures failed.Some? ==> failed == launchFails && p.closed
    {
      p := new Pool(if sizeArg == 0 then 4 else sizeArg);
      for i := 0 to p.size
        invariant fresh(p) && p.available == p.all == Fresh(i).all && p.unhealthy == {} && p.generations == 1
                && !p.closed
        invariant launchFails.Some? ==> i <= launchFails.value
      {
        if launchFails == Some(i) {
          p.closed := true;
          return p, Some(i);
        }
        var b := Browser(i, 0);
        p.all := p.all + [b];
        p.available := p.available + [b];
      }
      failed := None;
    }

    /**
     Acquire, run while nobody else uses the pool; `launches` as for Acquired.

     A browser that comes out is healthy and held by nobody else; if none comes out, every
     browser is still accounted for.
     */
    method Acquire(launches: seq<bool>, ghost held: multiset<Browser>) returns (r: Option<Browser>)
      requires Registered(State()) && Conserved(State(), held) && |all| == size
      modifies this
      ensures Registered(State()) && |all| == size && closed == old(closed) && unhealthy == old(unhealthy)
      ensures r.Some? ==> r.value !in unhealthy && Conserved(State(), held + multiset{r.value})
      ensures r.None? ==> Conserved(State(), held) && all == old(all)
      ensures IdsKnown(old(State())) && (State(), r) == Acquired(old(State()), launches)
    {
      hide Registered, Conserved, Fresh, IdsKnown;
      ConservedIdsKnown(State(), held);
      ghost var goal := Acquired(State(), launches);
      var attempt := 0;
      assert launches[0..] == launches;
      r := None;
      while available != [] && r.None?
        invariant attempt <= |launches|
        invariant Registered(State()) && |all| == size && unhealthy == old(unhealthy) && closed == old(closed)
        invariant r.Some? ==> r.value !in unhealthy && Conserved(State(), held + multiset{r.value})
        invariant r.None? ==> Conserved(State(), held) && all == old(all)
        invariant IdsKnown(State())
        invariant goal == if r.Some? then (State(), r) else Acquired(State(), launches[attempt..])
        decreases |launches| - attempt, if r.None? then 1 else 0
      {
        var ill := available[0] in unhealthy;
        if ill && attempt == |launches| {
          break; // the timeout or the cancellation is what select sees
        }
        if ill {
          assert launches[attempt..][0] == launches[attempt] && launches[attempt..][1..] == launches[attempt + 1..];
        }
        r := ReceiveOne(ill && launches[attempt], held);
        ConservedIdsKnown(State(), if r.Some? then held + multiset{r.value} else held);
        if ill {
          attempt := attempt + 1;
        }
      }
    }

    /** One turn of Acquire's loop: take the head of the channel and replace it if need be. */
    method ReceiveOne(launches: bool, ghost held: multiset<Browser>) returns (r: Option<Browser>)
      requires Registered(State()) && Conserved(State(), held) && |all| == size && available != []
      modifies this
      ensures Registered(State()) && |all| == size && closed == old(closed) && unhealthy == old(unhealthy)
      ensures r.Some? ==> r.value !in unhealthy && Conserved(State(), held + multiset{r.value})
      ensures r.None? ==>
                && Conserved(State(), held) && all == old(all)
                && available == old(available)[1..] + [old(available)[0]]
      ensures r.Some? <==> old(available)[0] !in old(unhealthy) || launches
      ensures old(available)[0] !in old(unhealthy) ==> r == Some(old(available)[0]) && State() == TakeHead(old(State()))
      ensures old(available)[0] in old(unhealthy) ==>
                var b := old(available)[0];
                && 0 <= b.id < |old(all)|
                && if launches then
                     r == Some(Browser(b.id, old(generations))) && State() == Replace(TakeHead(old(State())), b)
                   else State() == PutBack(TakeHead(old(State())), b)
    {
      hide Registered, Conserved;
      ghost var p := State();
      TakeConserves(p, held);
      HeldOnce(p, held, available[0]);
      var b := available[0];
      available := available[1..];
      if b !in unhealthy {
        return Some(b);
      }
      if !launches {
        // no replacement: the unhealthy one goes back to the end of the queue
        FailedReplacement(p, held);
        available := available + [b];
        assert State() == PutBack(TakeHead(p), b);
        return None;
      }
      Replacement(p, held);
      var replacement := Browser(b.id, generations);
      all := all[b.id := replacement];
      generations := generations + 1;
      assert State() == Replace(TakeHead(p), b);
      return Some(replacement);
    }

    method Release(b: Browser, ghost held: multiset<Browser>)
      requires Registered(State()) && Conserved(State(), held) && b in held && |all| == size
      modifies this`available
      ensures closed ==> State() == old(State())
      ensures !closed ==> State() == PutBack(old(State()), b) && Conserved(State(), held - multiset{b})
      ensures available == if closed then old(available) else old(available) + [b]
      ensures |available| <= size
    {
      RoomForHeld(State(), held, b);
      if !closed {
        PutBackConserves(State(), held, b);
        available := available + [b];
      }
    }

    method MarkUnhealthy(b: Browser)
      modifies this`unhealthy
      ensures State() == Mark(old(State()), b)
    {
      unhealthy := unhealthy + {b};
    }
  }

  // ----- Every browser once -----

  /** A fresh pool after i rounds of taking the head and putting it back. */
  function Rotated(size: nat, i: nat): PoolState
    requires i <= size
  {
    Fresh(size).(available := Fresh(size).all[i..] + Fresh(size).all[..i])
  }

  lemma RotatedConserved(size: nat, i: nat)
    requires i <= size
    ensures Conserved(Rotated(size, i), multiset{}) && Registered(Rotated(size, i)) && |Rotated(size, i).all| == size
  {
    var browsers := Fresh(size).all;
    assert browsers == browsers[..i] + browsers[i..];
  }

  lemma NextRotation(size: nat, i: nat)
    requires i < size
    ensures IdsKnown(Rotated(size, i))
    ensures var p := Rotated(size, i);
            && Acquired(p, []) == (TakeHead(p), Some(Browser(i, 0)))
            && PutBack(TakeHead(p), Browser(i, 0)) == Rotated(size, i + 1)
  {
    var browsers := Fresh(size).all;
    assert browsers[i..] == [browsers[i]] + browsers[i + 1..];
    assert browsers[..i + 1] == browsers[..i] + [browsers[i]];
    assert browsers[i + 1..] + browsers[..i] + [browsers[i]] == browsers[i + 1..] + browsers[..i + 1];
  }

  lemma FullCircle(size: nat)
    ensures Rotated(size, 0) == Rotated(size, size) == Fresh(size)
  {
    var browsers := Fresh(size).all;
    assert browsers[0..] + browsers[..0] == browsers == browsers[size..] + browsers[..size];
  }

  /** One round of the warm-up below: the pool turns by one. */
  method SetUpNext(pool: Pool, round: nat, fails: bool) returns (id: int)
    requires round < pool.size && pool.State() == Rotated(pool.size, round) && !pool.closed
    modifies pool
    ensures id == round && pool.closed == fails
    ensures !fails ==> pool.State() == Rotated(pool.size, round + 1)
  {
    hide Fresh, Rotated, Registered, Conserved, Acquired, IdsKnown, NoneHealthy;
    RotatedConserved(pool.size, round);
    NextRotation(pool.size, round);
    var b := pool.Acquire([], multiset{});
    if fails {
      pool.Release(b.value, multiset{} + multiset{b.value});
      pool.closed := true;
      return b.value.id;
    }
    pool.Release(b.value, multiset{} + multiset{b.value});
    return b.value.id;
  }

  /**
   The warm-up of the job queue: as many rounds of Acquire, set-up and Release as there are
   browsers.  It reaches every browser once, in the order of their ids, because released
   browsers go to the end of the channel; `setupFails` is the first round whose set-up fails.
   */
  method SetUpEvery(pool: Pool, setupFails: Option<nat>) returns (ids: seq<int>, ok: bool)
    requires pool.State() == Fresh(pool.size) && !pool.closed
    modifies pool
    ensures ok <==> setupFails.None? || setupFails.value >= pool.size
    ensures ids == seq(if ok then pool.size else setupFails.value + 1, i => i)
    ensures ok ==> pool.State() == Fresh(pool.size) && !pool.closed
    ensures !ok ==> pool.closed
  {
    hide Fresh, Rotated, Registered, Conserved, Acquired, IdsKnown;
    ids := [];
    FullCircle(pool.size);
    for round := 0 to pool.size
      invariant !pool.closed && ids == seq(round, i => i)
      invariant pool.State() == Rotated(pool.size, round)
      invariant setupFails.Some? ==> round <= setupFails.value
    {
      var id := SetUpNext(pool, round, setupFails == Some(round));
      ids := ids + [id];
      if setupFails == Some(round) {
        return ids, false;
      }
    }
    ok := true;
  }

  lemma HeldCurrent(p: PoolState, all: multiset<Browser>, held: multiset<Browser>)
    requires Registered(p) && Conserved(p, all) && held <= all
    ensures forall b :: b in held ==> 0 <= b.id < |p.all| && p.all[b.id] == b
  {
    forall b | b in held ensures 0 <= b.id < |p.all| && p.all[b.id] == b {
      HeldOnce(p, all, b);
    }
  }
}

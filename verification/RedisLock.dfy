/** The lock of app/services/redis_lock.py in real time. All clients contend for one key; a
    client is known by its token. */
module RedisLock {
  import opened Domain

  type Token = nat

  datatype Key = Free | Held(token: Token, expires: real)

  predicate Live(key: Key, now: real) {
    key.Held? && now < key.expires
  }

  /** SET key token NX EX ttl: the new key, and whether it was set. */
  function SetIfFree(key: Key, now: real, token: Token, ttl: real): (Key, bool) {
    if Live(key, now) then (key, false) else (Held(token, now + ttl), true)
  }

  /** The release script. */
  function CompareAndDelete(key: Key, now: real, token: Token): Key {
    if Live(key, now) && key.token == token then Free else key
  }

  class Server {
    var key: Key
    var now: real

    constructor ()
      ensures key == Free && now == 0.0
    {
      key, now := Free, 0.0;
    }
  }

  /** What a client finds when it comes back to the server: the key as others left it. */
  datatype Moment = Moment(key: Key, now: real)

  /** asyncio.sleep with a delay that is not positive returns at once. */
  function Pause(delay: real): real {
    if delay > 0.0 then delay else 0.0
  }

  /** Between two tries the client sleeps for its retry delay at least. */
  ghost predicate Sleeps(schedule: nat -> Moment, start: real, delay: real) {
    && start <= schedule(0).now
    && forall i: nat :: schedule(i).now + Pause(delay) <= schedule(i + 1).now
  }

  function Ceiling(x: real): int {
    -((-x).Floor)
  }

  lemma CeilingMeans(x: real)
    ensures x <= Ceiling(x) as real < x + 1.0
  {
  }

  class Lock {
    const token: Token
    const ttl: real
    const retryDelay: real
    const acquireTimeout: real
    var acquired: bool

    constructor (token: Token, ttl: real, retryDelay: real, acquireTimeout: real)
      ensures this.token == token && this.ttl == ttl && this.retryDelay == retryDelay
      ensures this.acquireTimeout == acquireTimeout && !acquired
    {
      this.token, this.ttl, this.retryDelay, this.acquireTimeout := token, ttl, retryDelay, acquireTimeout;
      acquired := false;
    }

    /** Tries until the key is free or the deadline has passed. The first try is always made;
        the number of tries is bounded by the timeout; giving up changes nothing. Without a
        delay that makes it wait, time passes all the same: try `late` comes after the deadline. */
    method Acquire(server: Server, start: real, schedule: nat -> Moment, ghost late: nat) returns (tries: nat)
      requires Sleeps(schedule, start, retryDelay)
      requires retryDelay > 0.0 || schedule(late).now >= start + acquireTimeout
      modifies this, server
      ensures 1 <= tries
      ensures tries == 1 || tries <= if retryDelay > 0.0 then Ceiling(acquireTimeout / retryDelay) + 1 else late + 1
      ensures forall i | 0 <= i < tries - 1 :: Live(schedule(i).key, schedule(i).now)
      ensures var last := schedule(tries - 1);
              && server.now == last.now
              && (Live(last.key, last.now) ==>
                    acquired == old(acquired) && server.key == last.key && last.now >= start + acquireTimeout)
              && (!Live(last.key, last.now) ==>
                    acquired && server.key == Held(token, last.now + ttl))
    {
      var deadline := start + acquireTimeout;
      tries := 0;
      ghost var pause := Pause(retryDelay);
      DueNext(start, pause, 0);
      while true
        invariant forall i | 0 <= i < tries :: Live(schedule(i).key, schedule(i).now)
        invariant Due(start, pause, tries) <= schedule(tries).now
        invariant tries > 0 ==> Due(start, pause, tries - 1) < deadline
        invariant retryDelay > 0.0 || tries <= late
        invariant acquired == old(acquired)
        decreases if retryDelay > 0.0 then Ceiling(acquireTimeout / retryDelay) + 1 - tries else late - tries
      {
        server.key, server.now := schedule(tries).key, schedule(tries).now;
        var (key, ok) := SetIfFree(server.key, server.now, token, ttl);
        server.key := key;
        if retryDelay > 0.0 {
          TriesBounded(start, tries, acquireTimeout, retryDelay);
        }
        DueNext(start, pause, tries);
        tries := tries + 1;
        if ok {
          acquired := true;
          return;
        }
        if server.now >= deadline {
          return;
        }
      }
    }

    method Release(server: Server)
      modifies this, server`key
      ensures !acquired
      ensures server.key == if old(acquired) then CompareAndDelete(old(server.key), server.now, token) else old(server.key)
    {
      if acquired {
        server.key := CompareAndDelete(server.key, server.now, token);
        acquired := false;
      }
    }
  }

  /** When the try after so many can come at the earliest. */
  function Due(start: real, delay: real, tries: nat): real {
    start + tries as real * delay
  }

  lemma DueNext(start: real, delay: real, tries: nat)
    ensures Due(start, delay, 0) == start && Due(start, delay, tries + 1) == Due(start, delay, tries) + delay
  {
    assert (tries + 1) as real == tries as real + 1.0;
  }

  lemma TriesBounded(start: real, tries: nat, timeout: real, delay: real)
    requires delay > 0.0
    requires tries > 0 ==> Due(start, delay, tries - 1) < start + timeout
    ensures tries > 0 ==> tries <= Ceiling(timeout / delay)
  {
    if tries > 0 {
      Quotient((tries - 1) as real, timeout, delay);
    }
  }

  lemma Quotient(n: real, x: real, d: real)
    requires d > 0.0 && n * d < x
    ensures n < x / d
  {
  }

  // ---- All clients together ----

  datatype Client = Outside | Inside(since: real, ttl: real)

  datatype State = State(now: real, key: Key, clients: map<Token, Client>)

  datatype Step =
    | Tick(elapsed: real)
    | Try(token: Token, ttl: real)
    | Leave(token: Token)

  const INITIAL := State(0.0, Free, map[])

  predicate IsInside(s: State, token: Token) {
    token in s.clients && s.clients[token].Inside?
  }

  /** Whether a client inside has held the lock for longer than it asked for. */
  predicate Overstayed(s: State, token: Token)
    requires IsInside(s, token)
  {
    s.now >= s.clients[token].since + s.clients[token].ttl
  }

  function Apply(s: State, step: Step): Option<State> {
    match step
    case Tick(elapsed) =>
      if elapsed >= 0.0 then Some(s.(now := s.now + elapsed)) else None
    case Try(token, ttl) =>
      if IsInside(s, token) then None
      else
        var (key, ok) := SetIfFree(s.key, s.now, token, ttl);
        Some(s.(key := key, clients := s.clients[token := if ok then Inside(s.now, ttl) else Outside]))
    case Leave(token) =>
      if IsInside(s, token)
      then Some(s.(key := CompareAndDelete(s.key, s.now, token), clients := s.clients[token := Outside]))
      else None
  }

  function Run(steps: seq<Step>): Option<State> {
    if |steps| == 0 then Some(INITIAL)
    else
      match Run(steps[..|steps| - 1])
      case Some(s) => Apply(s, steps[|steps| - 1])
      case None => None
  }

  /** A client inside within its TTL owns the live key, and nobody else does. */
  ghost predicate Inv(s: State) {
    && (forall token | IsInside(s, token) && !Overstayed(s, token) ::
          s.key == Held(token, s.clients[token].since + s.clients[token].ttl))
    && (Live(s.key, s.now) ==>
          IsInside(s, s.key.token)
          && s.key.expires == s.clients[s.key.token].since + s.clients[s.key.token].ttl)
  }

  lemma StepKeepsInv(s: State, step: Step)
    requires Inv(s) && Apply(s, step).Some?
    ensures Inv(Apply(s, step).value)
  {
    var s' := Apply(s, step).value;
    forall token | IsInside(s', token) && !Overstayed(s', token)
      ensures s'.key == Held(token, s'.clients[token].since + s'.clients[token].ttl)
    {
      assert IsInside(s, token) || (step.Try? && step.token == token);
    }
  }

  lemma {:induction false} RunKeepsInv(steps: seq<Step>)
    requires Run(steps).Some?
    ensures Inv(Run(steps).value)
  {
    if |steps| == 0 {
    } else {
      RunKeepsInv(steps[..|steps| - 1]);
      StepKeepsInv(Run(steps[..|steps| - 1]).value, steps[|steps| - 1]);
    }
  }

  /** Two clients are inside together only if one of them has overstayed its TTL. */
  lemma MutualExclusionWithinTtl(steps: seq<Step>, a: Token, b: Token)
    requires Run(steps).Some? && a != b
    requires IsInside(Run(steps).value, a) && IsInside(Run(steps).value, b)
    ensures Overstayed(Run(steps).value, a) || Overstayed(Run(steps).value, b)
  {
    RunKeepsInv(steps);
  }

  /** However late a client leaves, it never takes the lock from another client that is
      inside within its TTL. */
  lemma LateReleaseHarmless(steps: seq<Step>, late: Token, owner: Token)
    requires Run(steps).Some? && late != owner && IsInside(Run(steps).value, late)
    requires IsInside(Run(steps).value, owner) && !Overstayed(Run(steps).value, owner)
    ensures var s' := Apply(Run(steps).value, Leave(late)).value;
            s'.key == Run(steps).value.key && s'.key.Held? && s'.key.token == owner && Live(s'.key, s'.now)
  {
    RunKeepsInv(steps);
  }

  /** The lock can always be taken once every client inside has overstayed. */
  lemma EventuallyFree(steps: seq<Step>, token: Token, ttl: real)
    requires Run(steps).Some? && !IsInside(Run(steps).value, token) && ttl > 0.0
    requires forall t | IsInside(Run(steps).value, t) :: Overstayed(Run(steps).value, t)
    ensures IsInside(Apply(Run(steps).value, Try(token, ttl)).value, token)
  {
    RunKeepsInv(steps);
  }
}

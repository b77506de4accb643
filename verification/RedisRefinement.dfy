/** The Redis lock in time (RedisLock) is the Redis lock of the approval protocol (Protocol),
    where the key of an approval may disappear at any step. */
module RedisRefinement {
  import opened Domain
  import Protocol
  import RedisLock

  type Locks = map<Protocol.ApprovalId, Protocol.TxId>

  /** What can happen to the key of one approval. */
  datatype KeyStep = Acquire(t: nat) | Release(t: nat) | Expire

  function Turn(locks: Locks, id: Protocol.ApprovalId, step: KeyStep): Option<Locks> {
    match step
    case Acquire(t) => if id in locks then None else Some(locks[id := t])
    case Release(t) => Some(Protocol.CompareAndDelete(locks, id, t))
    case Expire => if id in locks then Some(locks - {id}) else None
  }

  /** The key steps that a step of the protocol takes. */
  function KeyStepOf(step: Protocol.Step): Option<KeyStep> {
    match step
    case AcquireRedis(t) => Some(Acquire(t))
    case ReleaseRedis(t) => Some(Release(t))
    case ExpireRedis(_) => Some(Expire)
    case _ => None
  }

  function ApprovalOf(s: Protocol.State, step: Protocol.Step): Protocol.ApprovalId {
    match step
    case AcquireRedis(t) => if t in s.txs then s.txs[t].id else 0
    case ReleaseRedis(t) => if t in s.txs then s.txs[t].id else 0
    case ExpireRedis(id) => id
    case _ => 0
  }

  /** These are all the ways in which the protocol touches its Redis keys. */
  lemma ProtocolTurns(cfg: Protocol.Config, s: Protocol.State, step: Protocol.Step)
    requires Protocol.Apply(cfg, s, step).Some?
    ensures var after := Protocol.Apply(cfg, s, step).value.redis;
            match KeyStepOf(step)
            case Some(turn) => Turn(s.redis, ApprovalOf(s, step), turn) == Some(after)
            case None => after == s.redis
  {
  }

  function TurnAll(locks: Locks, id: Protocol.ApprovalId, steps: seq<KeyStep>): Option<Locks> {
    if |steps| == 0 then Some(locks)
    else
      match TurnAll(locks, id, steps[..|steps| - 1])
      case Some(before) => Turn(before, id, steps[|steps| - 1])
      case None => None
  }

  /** The key as the protocol sees it: there while it is live. */
  function Keys(s: RedisLock.State, id: Protocol.ApprovalId): Locks {
    if RedisLock.Live(s.key, s.now) then map[id := s.key.token] else map[]
  }

  /** What the clients did: every successful try is an acquisition, every departure, however
      late, a release. */
  function Deed(s: RedisLock.State, step: RedisLock.Step): seq<KeyStep> {
    match step
    case Tick(_) => []
    case Try(token, _) => if RedisLock.Live(s.key, s.now) then [] else [Acquire(token)]
    case Leave(token) => [Release(token)]
  }

  function Deeds(steps: seq<RedisLock.Step>): seq<KeyStep>
    requires RedisLock.Run(steps).Some?
  {
    if |steps| == 0 then []
    else Deeds(steps[..|steps| - 1]) + Deed(RedisLock.Run(steps[..|steps| - 1]).value, steps[|steps| - 1])
  }

  /** The steps that are not expiries. */
  function Visible(steps: seq<KeyStep>): seq<KeyStep> {
    if |steps| == 0 then []
    else Visible(steps[..|steps| - 1]) + (if steps[|steps| - 1].Expire? then [] else [steps[|steps| - 1]])
  }

  lemma VisibleMore(steps: seq<KeyStep>, step: KeyStep)
    ensures Visible(steps + [step]) == Visible(steps) + (if step.Expire? then [] else [step])
  {
    assert (steps + [step])[..|steps + [step]| - 1] == steps;
  }

  lemma TurnMore(locks: Locks, id: Protocol.ApprovalId, steps: seq<KeyStep>, step: KeyStep)
    requires TurnAll(locks, id, steps).Some?
    ensures TurnAll(locks, id, steps + [step]) == Turn(TurnAll(locks, id, steps).value, id, step)
  {
    assert (steps + [step])[..|steps + [step]| - 1] == steps;
  }

  /** Key steps that lead from the empty store to `locks` and show what the clients did. */
  predicate Explains(turns: seq<KeyStep>, id: Protocol.ApprovalId, deeds: seq<KeyStep>, locks: Locks) {
    TurnAll(map[], id, turns) == Some(locks) && Visible(turns) == deeds
  }

  lemma Goes(turns: seq<KeyStep>, id: Protocol.ApprovalId, deeds: seq<KeyStep>, locks: Locks, turn: KeyStep)
    requires Explains(turns, id, deeds, locks) && Turn(locks, id, turn).Some?
    ensures Explains(turns + [turn], id, deeds + (if turn.Expire? then [] else [turn]), Turn(locks, id, turn).value)
  {
    VisibleMore(turns, turn);
    TurnMore(map[], id, turns, turn);
  }

  lemma TickRefines(s: RedisLock.State, elapsed: real, id: Protocol.ApprovalId, turns: seq<KeyStep>, deeds: seq<KeyStep>)
    returns (more: seq<KeyStep>)
    requires elapsed >= 0.0 && Explains(turns, id, deeds, Keys(s, id))
    ensures Explains(more, id, deeds, Keys(RedisLock.Apply(s, RedisLock.Tick(elapsed)).value, id))
  {
    more := turns;
    if RedisLock.Live(s.key, s.now) && !RedisLock.Live(s.key, s.now + elapsed) {
      Goes(turns, id, deeds, Keys(s, id), Expire);
      more := turns + [Expire];
      assert map[id := s.key.token] - {id} == map[];
    }
  }

  /** A key that is set without time to live is gone at once. */
  lemma TakingRefines(s: RedisLock.State, token: RedisLock.Token, ttl: real, id: Protocol.ApprovalId,
                      turns: seq<KeyStep>, deeds: seq<KeyStep>)
    returns (more: seq<KeyStep>)
    requires !RedisLock.Live(s.key, s.now) && Explains(turns, id, deeds, map[])
    ensures Explains(more, id, deeds + [Acquire(token)],
                     if RedisLock.Live(RedisLock.Held(token, s.now + ttl), s.now) then map[id := token] else map[])
  {
    Goes(turns, id, deeds, map[], Acquire(token));
    more := turns + [Acquire(token)];
    if !RedisLock.Live(RedisLock.Held(token, s.now + ttl), s.now) {
      Goes(more, id, deeds + [Acquire(token)], map[id := token], Expire);
      more := more + [Expire];
      assert map[id := token] - {id} == map[];
    }
  }

  lemma LeavingRefines(s: RedisLock.State, token: RedisLock.Token, id: Protocol.ApprovalId,
                       turns: seq<KeyStep>, deeds: seq<KeyStep>)
    requires Explains(turns, id, deeds, Keys(s, id))
    ensures Explains(turns + [Release(token)], id, deeds + [Release(token)],
                     Keys(s.(key := RedisLock.CompareAndDelete(s.key, s.now, token)), id))
  {
    Goes(turns, id, deeds, Keys(s, id), Release(token));
    assert map[id := token] - {id} == map[];
  }

  /** One step of the timed lock, as key steps. */
  lemma StepRefines(s: RedisLock.State, step: RedisLock.Step, id: Protocol.ApprovalId, turns: seq<KeyStep>, deeds: seq<KeyStep>)
    returns (more: seq<KeyStep>)
    requires RedisLock.Apply(s, step).Some? && Explains(turns, id, deeds, Keys(s, id))
    ensures Explains(more, id, deeds + Deed(s, step), Keys(RedisLock.Apply(s, step).value, id))
  {
    more := turns;
    match step {
      case Tick(elapsed) =>
        more := TickRefines(s, elapsed, id, turns, deeds);
      case Try(token, ttl) =>
        if !RedisLock.Live(s.key, s.now) {
          more := TakingRefines(s, token, ttl, id, turns, deeds);
        }
      case Leave(token) =>
        LeavingRefines(s, token, id, turns, deeds);
        more := turns + [Release(token)];
    }
  }

  /** Every run of the timed lock is a sequence of the protocol's own key steps: the same
      acquisitions and releases in the same order, with expiries in between, and at its end
      the key is there exactly if it is live, with the same holder. */
  lemma {:induction false} TimedRunRefines(steps: seq<RedisLock.Step>, id: Protocol.ApprovalId) returns (turns: seq<KeyStep>)
    requires RedisLock.Run(steps).Some?
    ensures TurnAll(map[], id, turns) == Some(Keys(RedisLock.Run(steps).value, id))
    ensures Visible(turns) == Deeds(steps)
    decreases |steps|
  {
    if |steps| == 0 {
      turns := [];
    } else {
      var before := TimedRunRefines(steps[..|steps| - 1], id);
      turns := StepRefines(RedisLock.Run(steps[..|steps| - 1]).value, steps[|steps| - 1], id, before, Deeds(steps[..|steps| - 1]));
    }
  }
}

/** The in-memory session store: entries expire by age, and expired ones are collected. */
module Sessions {
  import opened Prelude

  datatype Session = Session(createdAt: int, token: string)

  type Store = map<string, Session>

  predicate Expired(s: Session, ttl: int, now: int) { now - s.createdAt > ttl }

  /** What a lookup answers. */
  function Answer(m: Store, ttl: int, id: string, now: int): Option<Session> {
    if id in m && !Expired(m[id], ttl, now) then Some(m[id]) else None
  }

  function Collected(m: Store, ttl: int, now: int): Store { map id | id in m && !Expired(m[id], ttl, now) :: m[id] }

  class SessionStore {
    var sessions: Store
    const ttl: int

    constructor (ttl: int)
      ensures sessions == map[] && this.ttl == ttl
    {
      sessions := map[];
      this.ttl := ttl;
    }

    method Put(id: string, s: Session)
      modifies this
      ensures sessions == old(sessions)[id := s] == Step(old(sessions), ttl, Op.Put(id, s))
    {
      sessions := sessions[id := s];
    }

    method Get(id: string, now: int) returns (r: Option<Session>)
      modifies this
      ensures r == Answer(old(sessions), ttl, id, now)
      ensures sessions == if id in old(sessions) && r.None? then old(sessions) - {id} else old(sessions)
      ensures sessions == Step(old(sessions), ttl, Op.Get(id, now))
    {
      if id !in sessions { return None; }
      var s := sessions[id];
      if now - s.createdAt > ttl {
        sessions := sessions - {id};
        return None;
      }
      r := Some(s);
    }

    method Delete(id: string)
      modifies this
      ensures sessions == old(sessions) - {id} == Step(old(sessions), ttl, Op.Delete(id))
    {
      sessions := sessions - {id};
    }

    method Gc(now: int)
      modifies this
      ensures sessions == Collected(old(sessions), ttl, now) == Step(old(sessions), ttl, Op.Gc(now))
      ensures forall id :: id in sessions <==> id in old(sessions) && now - old(sessions)[id].createdAt <= ttl
      ensures forall id :: id in sessions ==> sessions[id] == old(sessions)[id]
    {
      var cutoff := now - ttl;
      var rest := sessions.Keys;
      while rest != {}
        invariant rest <= old(sessions).Keys
        invariant forall id :: id in sessions <==>
                  id in old(sessions) && (id in rest || !Expired(old(sessions)[id], ttl, now))
        invariant forall id :: id in sessions ==> sessions[id] == old(sessions)[id]
        decreases |rest|
      {
        var id :| id in rest;
        if sessions[id].createdAt < cutoff {
          sessions := sessions - {id};
        }
        rest := rest - {id};
      }
    }
  }

  // ---------- collection is unobservable

  datatype Op = Put(id: string, s: Session) | Get(id: string, now: int) | Delete(id: string) | Gc(now: int)

  /** The store as the class changes it. */
  function Step(m: Store, ttl: int, op: Op): Store {
    match op
    case Put(id, s) => m[id := s]
    case Get(id, now) => if id in m && Answer(m, ttl, id, now).None? then m - {id} else m
    case Delete(id) => m - {id}
    case Gc(now) => Collected(m, ttl, now)
  }

  function Run(m: Store, ttl: int, ops: seq<Op>): Store {
    if ops == [] then m else Step(Run(m, ttl, ops[..|ops| - 1]), ttl, ops[|ops| - 1])
  }

  /** The last put under an id that no delete followed. */
  function LastPut(ops: seq<Op>, id: string): Option<Session> {
    if ops == [] then None
    else match ops[|ops| - 1]
      case Put(i, s) => if i == id then Some(s) else LastPut(ops[..|ops| - 1], id)
      case Delete(i) => if i == id then None else LastPut(ops[..|ops| - 1], id)
      case _ => LastPut(ops[..|ops| - 1], id)
  }

  /** No operation reads a clock later than `now`, as a clock that never runs backwards ensures. */
  ghost predicate NotAfter(ops: seq<Op>, now: int) {
    forall i :: 0 <= i < |ops| ==> (ops[i].Get? ==> ops[i].now <= now) && (ops[i].Gc? ==> ops[i].now <= now)
  }

  /** The store has forgotten only what is expired at `now`. */
  lemma {:induction false} OnlyExpiredForgotten(ttl: int, ops: seq<Op>, now: int, id: string)
    requires NotAfter(ops, now)
    ensures
      var m := Run(map[], ttl, ops);
      && (id in m ==> LastPut(ops, id) == Some(m[id]))
      && (LastPut(ops, id).Some? && id !in m ==> Expired(LastPut(ops, id).value, ttl, now))
  {
    if ops != [] {
      var n := |ops| - 1;
      OnlyExpiredForgotten(ttl, ops[..n], now, id);
      assert ops[n].Get? || ops[n].Gc? ==> ops[n].now <= now;
    }
  }

  /** Garbage collection is unobservable: after any interleaving of operations, with or without
      collections, a lookup answers the last undeleted put if its age is at most the TTL, and
      nothing otherwise. */
  lemma CollectionUnobservable(ttl: int, ops: seq<Op>, id: string, now: int)
    requires NotAfter(ops, now)
    ensures Answer(Run(map[], ttl, ops), ttl, id, now)
            == (var p := LastPut(ops, id); if p.Some? && now - p.value.createdAt <= ttl then p else None)
  {
    OnlyExpiredForgotten(ttl, ops, now, id);
  }
}

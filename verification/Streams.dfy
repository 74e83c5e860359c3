/** The stream tables of the cluster instances and the client calls that change them,
    with the faults each call may suffer. */
module Streams {
  import opened Prelude

  /** One cluster instance, addressed by its cluster and pod ordinal. */
  datatype Addr = Addr(cluster: string, ordinal: int)

  datatype Stream = Stream(body: string, active: bool)

  type Table = map<Addr, map<string, Stream>>

  function Pod(t: Table, a: Addr): map<string, Stream> {
    if a in t then t[a] else map[]
  }

  function Find(t: Table, a: Addr, id: string): Option<Stream> {
    if id in Pod(t, a) then Some(Pod(t, a)[id]) else None
  }

  function Put(t: Table, a: Addr, id: string, s: Stream): (r: Table)
    ensures forall b, j :: Find(r, b, j) == if b == a && j == id then Some(s) else Find(t, b, j)
  {
    t[a := Pod(t, a)[id := s]]
  }

  function Remove(t: Table, a: Addr, id: string): (r: Table)
    ensures forall b, j :: Find(r, b, j) == if b == a && j == id then None else Find(t, b, j)
  {
    if a in t then t[a := t[a] - {id}] else t
  }

  /** A pod restart loses every stream of the instance. */
  function DropPod(t: Table, a: Addr): (r: Table)
    ensures forall b, j :: Find(r, b, j) == if b == a then None else Find(t, b, j)
  {
    t - {a}
  }

  // ---------- call outcomes

  /** What a refused or failed upsert left behind on the instance. */
  datatype Leftover = Untouched | Replaced | Lost

  /** An accepted upsert may still fail to load (a lossy PUT). */
  datatype EnsureOutcome =
    | Accepted(loaded: bool)
    | Rejected(message: string, left: Leftover)
    | Transient(left: Leftover)

  datatype DeleteOutcome = Deleted | DeleteFailed(gone: bool)

  datatype ReadOutcome = Answered | ReadFailed(message: string)

  datatype StatusRead = Missing | Unreadable(message: string) | Read(active: bool)

  /** What an upsert left behind, accepted or not. */
  function Left(o: EnsureOutcome): Leftover {
    match o
    case Accepted(loaded) => if loaded then Replaced else Lost
    case Rejected(_, l) => l
    case Transient(l) => l
  }

  function AfterLeftover(t: Table, a: Addr, id: string, body: string, left: Leftover): Table {
    match left
    case Untouched => t
    case Replaced => Put(t, a, id, Stream(body, true))
    case Lost => Remove(t, a, id)
  }

  function AfterEnsure(t: Table, a: Addr, id: string, body: string, o: EnsureOutcome): Table {
    AfterLeftover(t, a, id, body, Left(o))
  }

  function AfterDelete(t: Table, a: Addr, id: string, o: DeleteOutcome): Table {
    if o == DeleteFailed(false) then t else Remove(t, a, id)
  }

  function ReadStatus(t: Table, a: Addr, id: string, o: ReadOutcome): StatusRead {
    match o
    case ReadFailed(m) => Unreadable(m)
    case Answered => match Find(t, a, id)
      case None => Missing
      case Some(s) => Read(s.active)
  }

  /** The in-memory client: one table per instance, changed by every call. */
  class FakeClient {
    var streams: Table
    var ensureCount: nat

    constructor ()
      ensures streams == map[] && ensureCount == 0
    {
      streams, ensureCount := map[], 0;
    }

    method EnsureStream(a: Addr, id: string, body: string, o: EnsureOutcome)
      modifies this
      ensures streams == AfterEnsure(old(streams), a, id, body, o)
      ensures ensureCount == old(ensureCount) + 1
    {
      ensureCount := ensureCount + 1;
      var left;
      match o {
        case Accepted(loaded) => left := if loaded then Replaced else Lost;
        case Rejected(_, l) => left := l;
        case Transient(l) => left := l;
      }
      if left == Replaced {
        if a !in streams {
          streams := streams[a := map[]];
        }
        streams := streams[a := streams[a][id := Stream(body, true)]];
        assert streams == AfterEnsure(old(streams), a, id, body, o);
      } else if left == Lost && a in streams {
        streams := streams[a := streams[a] - {id}];
      }
    }

    method DeleteStream(a: Addr, id: string, o: DeleteOutcome)
      modifies this`streams
      ensures streams == AfterDelete(old(streams), a, id, o)
    {
      if o != DeleteFailed(false) && a in streams {
        streams := streams[a := streams[a] - {id}];
      }
    }

    method GetStreamStatus(a: Addr, id: string, o: ReadOutcome) returns (r: StatusRead)
      ensures r == ReadStatus(streams, a, id, o)
    {
      if o.ReadFailed? { return Unreadable(o.message); }
      if a !in streams || id !in streams[a] { return Missing; }
      r := Read(streams[a][id].active);
    }
  }
}

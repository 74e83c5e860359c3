/** The production streams client: upsert by PUT, falling back to POST when the stream does not
    exist, and the classification of refusals. */
module StreamsHttp {
  import opened Prelude
  import opened Streams

  /** How the instance treats one config-bearing request. */
  datatype Mood =
    | Serve(loaded: bool)                                   // a 2xx, perhaps without loading the stream
    | Refuse(status: int, body: string, left: Leftover)     // any other status
    | Unreachable(left: Leftover)                           // a transport error

  datatype Reply = Reply(status: int, body: string) | NoReply

  predicate Contains(s: string, part: string) { exists i :: 0 <= i <= |s| && part <= s[i..] }

  /** A permanent rejection: a 4xx, or a 502 that reports a failed initialisation. */
  predicate ConfigRejected(status: int, body: string) {
    400 <= status < 500 || (status == 502 && Contains(body, "failed to init"))
  }

  /** The marker stands somewhere in the body. */
  ghost predicate ReportsFailedInit(body: string) {
    exists i :: MarkerAt(body, i)
  }

  predicate MarkerAt(body: string, i: int) { 0 <= i <= |body| - 14 && body[i..i + 14] == "failed to init" }

  lemma MarkerFound(body: string)
    ensures Contains(body, "failed to init") <==> ReportsFailedInit(body)
  {
    if Contains(body, "failed to init") {
      var i :| 0 <= i <= |body| && "failed to init" <= body[i..];
      assert body[i..][..14] == body[i..i + 14];
      assert MarkerAt(body, i);
    }
    if ReportsFailedInit(body) {
      var i :| MarkerAt(body, i);
      assert body[i..][..14] == body[i..i + 14];
    }
  }

  function LeftBy(m: Mood): Leftover {
    match m
    case Serve(loaded) => if loaded then Replaced else Lost
    case Refuse(_, _, l) => l
    case Unreachable(l) => l
  }

  function ReplyOf(m: Mood): Reply {
    match m
    case Serve(_) => Reply(200, "")
    case Refuse(s, b, _) => Reply(s, b)
    case Unreachable(_) => NoReply
  }

  /** A refusal is not a 2xx, and only an unknown stream makes a PUT answer 404. */
  predicate ValidMood(m: Mood, put: bool) { m.Refuse? ==> m.status >= 300 && (put ==> m.status != 404) }

  /** One request: a PUT of an unknown stream, if served at all, is answered 404 and changes nothing. */
  method Request(put: bool, t: Table, a: Addr, id: string, body: string, m: Mood) returns (r: Reply, t': Table)
    ensures if put && m.Serve? && Find(t, a, id).None? then r == Reply(404, "") && t' == t
            else r == ReplyOf(m) && t' == AfterLeftover(t, a, id, body, LeftBy(m))
  {
    if put && m.Serve? && Find(t, a, id).None? { return Reply(404, ""), t; }
    r, t' := ReplyOf(m), AfterLeftover(t, a, id, body, LeftBy(m));
  }

  /** The HTTP upsert refines the abstract call: its effect on the instance is that of the outcome
      it reports, whether or not the stream existed before. The POST decides exactly when the PUT was
      served for an unknown stream. The call succeeds exactly when the deciding request was served, is
      rejected exactly for a status from 400 to 499 or a 502 that reports a failed initialisation, and
      otherwise may be tried again. */
  method EnsureStream(t: Table, a: Addr, id: string, body: string, onPut: Mood, onPost: Mood)
    returns (t': Table, o: EnsureOutcome)
    requires ValidMood(onPut, true) && ValidMood(onPost, false)
    ensures t' == AfterEnsure(t, a, id, body, o)
    ensures var deciding := if onPut.Serve? && Find(t, a, id).None? then onPost else onPut;
            && (o.Accepted? <==> deciding.Serve?)
            && (o.Accepted? ==> o.loaded == deciding.loaded)
            && (o.Rejected? <==>
                  && deciding.Refuse?
                  && (400 <= deciding.status <= 499 || (deciding.status == 502 && ReportsFailedInit(deciding.body))))
            && (o.Rejected? ==> o.message == deciding.body && o.left == deciding.left)
            && (o.Transient? <==>
                  || deciding.Unreachable?
                  || (deciding.Refuse? && (deciding.status < 400 || deciding.status > 499)
                      && !(deciding.status == 502 && ReportsFailedInit(deciding.body))))
            && (o.Transient? ==> o.left == deciding.left)
    ensures o == Accepted(true) ==> Find(t', a, id) == Some(Stream(body, true))
  {
    hide Contains, ReportsFailedInit;
    if onPut.Refuse? { MarkerFound(onPut.body); }
    if onPost.Refuse? { MarkerFound(onPost.body); }
    var r;
    var last := onPut;
    r, t' := Request(true, t, a, id, body, onPut);
    if r.NoReply? { return t', Transient(LeftBy(onPut)); }
    if r.status == 404 {
      last := onPost;
      r, t' := Request(false, t', a, id, body, onPost);
      if r.NoReply? { return t', Transient(LeftBy(onPost)); }
    }
    if ConfigRejected(r.status, r.body) { return t', Rejected(r.body, LeftBy(last)); }
    if r.status >= 300 { return t', Transient(LeftBy(last)); }
    o := Accepted(last.loaded);
  }
}

/** The request body, put together from the host's buffer chunk by chunk. */
module BodyReassembly {
  import opened Wrappers
  import opened CacheKey
  import opened HeaderMap
  import opened Filter
  import opened FilterTheorems

  /** When new bytes are asked for, the host returns that slice of `body`, or nothing. */
  ghost predicate HonestRead(st: FilterState, cb: Callback, body: seq<byte>) {
    cb.OnBody? && cb.bodySize > st.bodySeen ==>
      cb.bodySize <= |body| && cb.chunk in {None, Some(body[st.bodySeen..cb.bodySize])}
  }

  /** A read of new bytes that returns nothing. */
  ghost predicate FailedRead(cfg: Settings, st: FilterState, cb: Callback) {
    cb.OnBody? && !st.dispatched && st.bodySeen < cb.bodySize <= cfg.maxBody && cb.chunk.None?
  }

  ghost predicate HonestReads(cfg: Settings, cbs: seq<Callback>, body: seq<byte>) {
    cbs != [] ==>
      HonestReads(cfg, cbs[..|cbs| - 1], body) && HonestRead(RunFilter(cfg, cbs[..|cbs| - 1]), cbs[|cbs| - 1], body)
  }

  ghost predicate NoFailedRead(cfg: Settings, cbs: seq<Callback>) {
    cbs != [] ==>
      NoFailedRead(cfg, cbs[..|cbs| - 1]) && !FailedRead(cfg, RunFilter(cfg, cbs[..|cbs| - 1]), cbs[|cbs| - 1])
  }

  /** `whole` tells whether no read has failed. */
  ghost predicate BodyOk(cfg: Settings, st: FilterState, body: seq<byte>, whole: bool) {
    && st.bodySeen <= |body| && st.bodySeen <= cfg.maxBody
    && (!st.dispatched ==> if whole then st.bodyBuf == body[..st.bodySeen] else |st.bodyBuf| < st.bodySeen)
    && (forall i :: 0 <= i < |st.checks| ==>
          var sent := st.checks[i].request;
          sent.size == |sent.rawBody|
          && if whole then sent.rawBody == body[..st.bodySeen] else |sent.rawBody| < st.bodySeen)
  }

  lemma FinishBody(cfg: Settings, st: FilterState, endOfStream: bool, env: Env, body: seq<byte>, whole: bool)
    requires OneAction(cfg, st) && BodyOk(cfg, st, body, whole)
    ensures BodyOk(cfg, Finish(cfg, st, endOfStream, env), body, whole)
    ensures Finish(cfg, st, endOfStream, env).bodySeen == st.bodySeen
  {
    if endOfStream && !st.dispatched && !st.isInvalidation {
      var n := Dispatch(cfg, st, env);
      assert n.checks == [Check(ToHttp(st.parts, st.bodyBuf), CacheKeyOf(cfg, ToHttp(st.parts, st.bodyBuf)))];
    }
  }

  lemma ReceiveBodyOk(cfg: Settings, st: FilterState, bodySize: nat, chunk: Option<seq<byte>>, body: seq<byte>, whole: bool)
    requires OneAction(cfg, st) && !st.dispatched && BodyOk(cfg, st, body, whole)
    requires bodySize > st.bodySeen ==> bodySize <= |body| && chunk in {None, Some(body[st.bodySeen..bodySize])}
    ensures BodyOk(cfg, ReceiveBody(cfg, st, bodySize, chunk), body,
                   whole && !(st.bodySeen < bodySize <= cfg.maxBody && chunk.None?))
  {
    if st.bodySeen < bodySize <= cfg.maxBody && chunk.Some? {
      assert body[..st.bodySeen] + body[st.bodySeen..bodySize] == body[..bodySize];
    }
  }

  lemma {:induction false} HeadersBody(cfg: Settings, st: FilterState, hs: seq<Header>, endOfStream: bool, env: Env, body: seq<byte>, whole: bool)
    requires OneAction(cfg, st) && BodyOk(cfg, st, body, whole)
    ensures BodyOk(cfg, HeadersStep(cfg, st, hs, endOfStream, env), body, whole)
  {
    if !st.dispatched {
      ReceiveHeadersDelta(cfg, st, hs);
      FinishBody(cfg, ReceiveHeaders(cfg, st, hs), endOfStream, env, body, whole);
    }
  }

  lemma {:induction false} ChunkBody(cfg: Settings, st: FilterState, cb: Callback, body: seq<byte>, whole: bool)
    requires cb.OnBody? && OneAction(cfg, st) && BodyOk(cfg, st, body, whole) && HonestRead(st, cb, body)
    ensures BodyOk(cfg, BodyStep(cfg, st, cb.bodySize, cb.chunk, cb.endOfStream, cb.env), body,
                   whole && !FailedRead(cfg, st, cb))
  {
    if !st.dispatched {
      ReceiveBodyDelta(cfg, st, cb.bodySize, cb.chunk);
      ReceiveBodyOk(cfg, st, cb.bodySize, cb.chunk, body, whole);
      FinishBody(cfg, ReceiveBody(cfg, st, cb.bodySize, cb.chunk), cb.endOfStream, cb.env, body,
                 whole && !FailedRead(cfg, st, cb));
    }
  }

  lemma GrpcBodyKept(cfg: Settings, st: FilterState, token: nat, status: nat, answer: GrpcBody, body: seq<byte>, whole: bool)
    requires OneAction(cfg, st) && BodyOk(cfg, st, body, whole)
    ensures BodyOk(cfg, GrpcStep(cfg, st, token, status, answer), body, whole)
  {
    var n := GrpcStep(cfg, st, token, status, answer);
    assert n.bodySeen == st.bodySeen && n.bodyBuf == st.bodyBuf && n.checks == st.checks && n.dispatched == st.dispatched;
  }

  lemma {:induction false} StepBody(cfg: Settings, st: FilterState, cb: Callback, body: seq<byte>, whole: bool)
    requires OneAction(cfg, st) && BodyOk(cfg, st, body, whole) && HonestRead(st, cb, body)
    ensures BodyOk(cfg, StepFilter(cfg, st, cb), body, whole && !FailedRead(cfg, st, cb))
  {
    match cb
    case OnHeaders(hs, endOfStream, env) => HeadersBody(cfg, st, hs, endOfStream, env, body, whole);
    case OnBody(_, _, _, _) => ChunkBody(cfg, st, cb, body, whole);
    case OnGrpc(token, status, answer) => GrpcBodyKept(cfg, st, token, status, answer, body, whole);
  }

  lemma {:induction false} RunBody(cfg: Settings, cbs: seq<Callback>, body: seq<byte>)
    requires HonestReads(cfg, cbs, body)
    ensures BodyOk(cfg, RunFilter(cfg, cbs), body, NoFailedRead(cfg, cbs))
  {
    if cbs != [] {
      var init := cbs[..|cbs| - 1];
      RunBody(cfg, init, body);
      RunDelta(cfg, init);
      StepBody(cfg, RunFilter(cfg, init), cbs[|cbs| - 1], body, NoFailedRead(cfg, init));
    }
  }

  /** Until the body is handed off, the buffer is exactly the part of the body seen so far, within the
      configured limit, if and only if no read of new bytes returned nothing; a failed read leaves a
      gap for good, because its bytes are never asked for again. */
  lemma {:induction false} BufferIsBodyIff(cfg: Settings, cbs: seq<Callback>, body: seq<byte>)
    requires HonestReads(cfg, cbs, body) && !RunFilter(cfg, cbs).dispatched
    ensures var st := RunFilter(cfg, cbs);
            && st.bodySeen <= cfg.maxBody && st.bodySeen <= |body|
            && (st.bodyBuf == body[..st.bodySeen] <==> NoFailedRead(cfg, cbs))
  {
    RunBody(cfg, cbs, body);
  }

  /** The request that is checked carries the body seen so far, and its length, under the same condition. */
  lemma {:induction false} CheckedBodyIff(cfg: Settings, cbs: seq<Callback>, body: seq<byte>)
    requires HonestReads(cfg, cbs, body) && RunFilter(cfg, cbs).checks != []
    ensures var st := RunFilter(cfg, cbs);
            var sent := st.checks[0].request;
            && st.bodySeen <= cfg.maxBody && st.bodySeen <= |body|
            && sent.size == |sent.rawBody|
            && (sent.rawBody == body[..st.bodySeen] <==> NoFailedRead(cfg, cbs))
  {
    RunBody(cfg, cbs, body);
  }

  /** When the last callback reports the whole body and ends the stream, the whole body is checked. */
  lemma {:induction false} WholeBodyIsChecked(cfg: Settings, cbs: seq<Callback>, body: seq<byte>)
    requires HonestReads(cfg, cbs, body) && NoFailedRead(cfg, cbs) && cbs != []
    requires var last := cbs[|cbs| - 1]; last.OnBody? && last.endOfStream && last.bodySize == |body| <= cfg.maxBody
    requires var st := RunFilter(cfg, cbs[..|cbs| - 1]); !st.dispatched && !st.isInvalidation
    ensures var st := RunFilter(cfg, cbs);
            |st.checks| == 1 && st.checks[0].request.rawBody == body && st.checks[0].request.size == |body|
  {
    var init := cbs[..|cbs| - 1];
    RunBody(cfg, init, body);
    RunDelta(cfg, init);
    LastChunk(cfg, RunFilter(cfg, init), cbs[|cbs| - 1], body);
  }

  lemma {:induction false} LastChunk(cfg: Settings, st: FilterState, last: Callback, body: seq<byte>)
    requires OneAction(cfg, st) && BodyOk(cfg, st, body, true) && !st.dispatched && !st.isInvalidation
    requires HonestRead(st, last, body) && !FailedRead(cfg, st, last)
    requires last.OnBody? && last.endOfStream && last.bodySize == |body| <= cfg.maxBody
    ensures var n := BodyStep(cfg, st, |body|, last.chunk, true, last.env);
            |n.checks| == 1 && n.checks[0].request.rawBody == body && n.checks[0].request.size == |body|
  {
    var read := ReceiveBody(cfg, st, |body|, last.chunk);
    ReceiveBodyDelta(cfg, st, |body|, last.chunk);
    ReceiveBodyOk(cfg, st, |body|, last.chunk, body, true);
    assert read.bodyBuf == body[..|body|] == body;
    FinishChecks(cfg, read, last.env);
  }

  lemma FinishChecks(cfg: Settings, read: FilterState, env: Env)
    requires OneAction(cfg, read) && !read.dispatched && !read.isInvalidation
    ensures var n := Finish(cfg, read, true, env);
            |n.checks| == 1 && n.checks[0].request == ToHttp(read.parts, read.bodyBuf)
  {
    TakeDelta(cfg, read);
    assert Finish(cfg, read, true, env).checks == TakeRequest(cfg, read).checks;
  }

  function TwoChunks(y: byte, env: Env): seq<Callback> {
    [OnBody(1, None, false, env), OnBody(2, Some([y]), true, env)]
  }

  /** The first of two bytes is reported, but reading it returns nothing: it is never asked for again, and
      the service is asked about a body that lacks it. */
  lemma {:induction false} FailedReadLeavesGap(cfg: Settings, x: byte, y: byte, env: Env)
    requires cfg.maxBody >= 2
    ensures var cbs, body := TwoChunks(y, env), [x, y];
            HonestReads(cfg, cbs, body) && |RunFilter(cfg, cbs).checks| == 1
            && RunFilter(cfg, cbs).checks[0].request.rawBody == [y] != body
  {
    var cbs, body := TwoChunks(y, env), [x, y];
    var first := FRESH.(bodySeen := 1, turn := 1);
    assert cbs[..1] == [cbs[0]] && cbs[..1][..0] == [];
    assert RunFilter(cfg, cbs[..1][..0]) == FRESH;
    assert RunFilter(cfg, cbs[..1]) == first;
    assert body[1..2] == [y] && [] + [y] == [y];
    FinishChecks(cfg, ReceiveBody(cfg, first, 2, Some([y])), env);
  }
}

/** The two service combinators of `src/service/util.rs`.

    A tower `Service` has two operations, `poll_ready` and `call`, both taking
    `&mut self`; here each returns the service value it leaves behind together
    with its answer. The two adapters are the variants of one datatype:

    - `ServiceFn` wraps a handler. The Rust handler is an `FnMut` closure, so it
      is modelled as a step function over the closure's captured state: calling
      it yields the next captured state and the handler's outcome. The future
      the handler returns is represented by the outcome it settles to.
    - `Shared` holds a cloneable value and answers every request with it.
      Its Rust error type is `Infallible`; here the error type is left generic
      and "never an error" is proved instead. */
module ServiceUtil {
  import opened Core

  /** The closure behind a `ServiceFn`: captured state in, next captured state
      and the handler's outcome out. */
  type Handler<!S, -Req, T, E> = (S, Req) -> (S, Result<T, E>)

  datatype Service<!S, -Req, T, E> =
    | ServiceFn(f: Handler<S, Req, T, E>, state: S)
    | Shared(value: T)
  {
    /** `poll_ready` of both adapters: always ready, and neither the closure
        nor the shared value is consulted or changed. */
    function PollReady(): (r: (Service<S, Req, T, E>, Poll<Result<(), E>>))
      ensures r.1 == Ready(Ok(()))
      ensures r.0 == this
    {
      (this, Ready(Ok(())))
    }

    /** `call`: a `ServiceFn` hands the request to its closure and passes the
        closure's outcome through unchanged; only the captured state may move
        on. A `Shared` ignores the request and answers with its value. */
    function Call(req: Req): (r: (Service<S, Req, T, E>, Result<T, E>))
      ensures ServiceFn? ==> r.0.ServiceFn? && r.0.f == f
      ensures ServiceFn? ==> (r.0.state, r.1) == f(state, req)
      ensures Shared? ==> r.0 == this && r.1 == Ok(value)
    {
      match this
      case ServiceFn(f, s) =>
        var (s', out) := f(s, req);
        (ServiceFn(f, s'), out)
      case Shared(v) =>
        (this, Ok(v))
    }

    /** `Clone` (derived for `Shared`, written out for `ServiceFn`): the clone
        holds a copy of the closure, captured state included, or of the value. */
    function Clone(): (r: Service<S, Req, T, E>)
      ensures ServiceFn? ==> r.ServiceFn? && r.f == f && r.state == state
      ensures Shared? ==> r.Shared? && r.value == value
    {
      match this
      case ServiceFn(f, s) => ServiceFn(f, s)
      case Shared(v) => Shared(v)
    }

    /** Calls `poll_ready` `n` times in a row; the service left behind and the
        answers, in order. */
    function PollRepeatedly(n: nat): (r: (Service<S, Req, T, E>, seq<Poll<Result<(), E>>>))
      ensures |r.1| == n
      decreases n
    {
      if n == 0 then (this, [])
      else
        var (s1, p) := PollReady();
        var (s2, ps) := s1.PollRepeatedly(n - 1);
        (s2, [p] + ps)
    }

    /** Drives the service through `reqs` as a caller of the service contract
        does: `poll_ready`, then `call`, once per request, in order. */
    function Drive(reqs: seq<Req>): (r: (Service<S, Req, T, E>, seq<Result<T, E>>))
      ensures |r.1| == |reqs|
      decreases |reqs|
    {
      if reqs == [] then (this, [])
      else
        var (s1, _) := PollReady();
        var (s2, out) := s1.Call(reqs[0]);
        var (s3, outs) := s2.Drive(reqs[1..]);
        (s3, [out] + outs)
    }
  }

  /** `service_fn(f)`: a `ServiceFn` holding exactly the given closure. */
  function NewServiceFn<S, Req, T, E>(f: Handler<S, Req, T, E>, captured: S): (r: Service<S, Req, T, E>)
    ensures r.ServiceFn? && r.f == f && r.state == captured
  {
    ServiceFn(f, captured)
  }

  /** `shared(value)`: a `Shared` holding the value verbatim. */
  function NewShared<S, Req, T, E>(value: T): (r: Service<S, Req, T, E>)
    ensures r.Shared? && r.value == value
  {
    Shared(value)
  }

  /** The bare closure invoked on `reqs` one after another, with no service
      around it: the reference `ServiceFn` is compared against. */
  function RunHandler<S, Req, T, E>(f: Handler<S, Req, T, E>, s: S, reqs: seq<Req>): (r: (S, seq<Result<T, E>>))
    ensures |r.1| == |reqs|
    decreases |reqs|
  {
    if reqs == [] then (s, [])
    else
      var (s1, out) := f(s, reqs[0]);
      var (s2, outs) := RunHandler(f, s1, reqs[1..]);
      (s2, [out] + outs)
  }

  /** Any number of `poll_ready` calls, on either adapter, change nothing and
      all answer `Ready(Ok(()))`. */
  lemma {:induction false} PollReadyIdempotent<S, Req, T, E>(svc: Service<S, Req, T, E>, n: nat)
    ensures svc.PollRepeatedly(n).0 == svc
    ensures forall i :: 0 <= i < n ==> svc.PollRepeatedly(n).1[i] == Ready(Ok(()))
    decreases n
  {
    if n > 0 {
      PollReadyIdempotent(svc, n - 1);
    }
  }

  /** A `ServiceFn` driven through any request sequence answers exactly what
      its bare closure answers, in the same order, and ends holding the
      closure's final captured state: the adapter adds and drops nothing. */
  lemma {:induction false} ServiceFnIsTransparent<S, Req, T, E>(f: Handler<S, Req, T, E>, s: S, reqs: seq<Req>)
    ensures NewServiceFn(f, s).Drive(reqs).1 == RunHandler(f, s, reqs).1
    ensures NewServiceFn(f, s).Drive(reqs).0 == ServiceFn(f, RunHandler(f, s, reqs).0)
    decreases |reqs|
  {
    if reqs != [] {
      var (s1, _) := f(s, reqs[0]);
      ServiceFnIsTransparent(f, s1, reqs[1..]);
    }
  }

  /** A clone, driven through any request sequence, answers exactly as the
      original would. */
  lemma CloneAnswersAlike<S, Req, T, E>(svc: Service<S, Req, T, E>, reqs: seq<Req>)
    ensures svc.Clone().Drive(reqs).1 == svc.Drive(reqs).1
  {
  }

  /** `Shared` ignores its input: two requests, whatever they are, get the same
      answer, the held value, and the service is left as it was. */
  lemma SharedIgnoresRequest<S, Req, T, E>(v: T, r1: Req, r2: Req)
    ensures NewShared<S, Req, T, E>(v).Call(r1) == NewShared<S, Req, T, E>(v).Call(r2)
    ensures NewShared<S, Req, T, E>(v).Call(r1) == (Shared(v), Ok(v))
  {
  }

  /** Any number of calls on a `Shared` all succeed with the held value, none
      is ever an `Err`, and the value is never changed. */
  lemma {:induction false} SharedNeverFails<S, Req, T, E>(v: T, reqs: seq<Req>)
    ensures NewShared<S, Req, T, E>(v).Drive(reqs).0 == Shared(v)
    ensures forall i :: 0 <= i < |reqs| ==> NewShared<S, Req, T, E>(v).Drive(reqs).1[i] == Ok(v)
    decreases |reqs|
  {
    if reqs != [] {
      SharedNeverFails<S, Req, T, E>(v, reqs[1..]);
    }
  }
}

/** The connector of `examples/client.rs`, with the host's `fetch` and the
    `block_on` bridge abstracted away.

    - `LocalConnect` is hyper's connector: a field-less service from a target
      `Uri` to a connection. Its `call` fetches the target's path through the
      host and settles before returning; the host is a parameter here, a
      function from the request it is given to the outcome it settles to.
    - `ConnectImplConformer` is the connection: a byte buffer read through a
      temporary slice and written, flushed and shut down through a temporary
      clone, so the buffer itself never changes.
    - `Start` is the entry point's scheme guard. */
module Client {
  import opened Core
  import Decimal

  /** A parsed target; only the parts the modelled code looks at. */
  datatype Uri = Uri(scheme: Option<string>, authority: string, path: string)

  /** What the host's `fetch` is asked for: `WebRequest::new_with_str(path)`. */
  datatype HostRequest = HostRequest(path: string)

  /** How the host's `fetch` settles: a response with its status, or a
      rejection with its message. */
  datatype FetchOutcome = FetchOk(status: u16) | FetchErr(message: string)

  /** `std::io::Error`; none of the modelled operations produces one. */
  datatype IoError = IoError(message: string)

  /** hyper's connection metadata: the negotiated ALPN protocol and whether
      the connection goes through a proxy. */
  datatype Alpn = H2 | NoAlpn
  datatype Connected = Connected(alpn: Alpn, isProxied: bool)

  /** `Connected::new()`: nothing negotiated, not proxied. */
  function NewConnected(): (c: Connected)
    ensures c.alpn == NoAlpn && !c.isProxied
  {
    Connected(NoAlpn, false)
  }

  // ----- the temporaries the connection's I/O methods work on -----

  /** A read from a byte slice (`AsyncRead for &[u8]`): copies as many bytes
      as fit from the front of the slice into `dst` and advances the slice. */
  datatype SliceRead = SliceRead(rest: seq<u8>, count: nat, dst: seq<u8>)

  function ReadFromSlice(slice: seq<u8>, dst: seq<u8>): (r: SliceRead)
    ensures r.count == Min(|dst|, |slice|)
    ensures r.rest == slice[r.count..]
    ensures |r.dst| == |dst|
    ensures forall i :: 0 <= i < |dst| ==> r.dst[i] == if i < r.count then slice[i] else dst[i]
  {
    var n := Min(|dst|, |slice|);
    SliceRead(slice[n..], n, slice[..n] + dst[n..])
  }

  /** A write to a byte vector (`AsyncWrite for Vec<u8>`): appends all of
      `src` and reports its length. */
  function WriteToVec(v: seq<u8>, src: seq<u8>): (r: (seq<u8>, nat))
    ensures |r.0| == |v| + |src| && r.0[..|v|] == v && r.0[|v|..] == src && r.1 == |src|
  {
    (v + src, |src|)
  }

  // ----- the connection -----

  /** The result of `poll_read`: the connection left behind, the poll, and
      the caller's buffer after the read. */
  datatype ReadStep = ReadStep(conn: ConnectImplConformer, poll: Poll<Result<nat, IoError>>, dst: seq<u8>)

  /** The result of `poll_write`, `poll_flush` and `poll_shutdown`. */
  datatype WriteStep = WriteStep(conn: ConnectImplConformer, poll: Poll<Result<nat, IoError>>)
  datatype UnitStep = UnitStep(conn: ConnectImplConformer, poll: Poll<Result<(), IoError>>)

  datatype ConnectImplConformer = ConnectImplConformer(buf: seq<u8>)
  {
    /** `poll_read` reads from a temporary slice over the buffer: the caller
        gets the buffer's first bytes, as many as fit, and the slice's
        advance is dropped with the slice. */
    function PollRead(dst: seq<u8>): (r: ReadStep)
      ensures r.conn == this
      ensures r.poll == Ready(Ok(Min(|dst|, |buf|)))
      ensures |r.dst| == |dst|
      ensures forall i :: 0 <= i < |dst| ==> r.dst[i] == if i < |buf| then buf[i] else dst[i]
    {
      var tmp := ReadFromSlice(buf, dst);
      ReadStep(this, Ready(Ok(tmp.count)), tmp.dst)
    }

    /** `poll_write` appends to a temporary clone of the buffer: it reports
        every byte written, and the connection keeps none of them. */
    function PollWrite(src: seq<u8>): (r: WriteStep)
      ensures r.conn == this
      ensures r.poll == Ready(Ok(|src|))
    {
      var (_, n) := WriteToVec(buf, src);
      WriteStep(this, Ready(Ok(n)))
    }

    /** `poll_flush` flushes a temporary clone: always done, nothing changes. */
    function PollFlush(): (r: UnitStep)
      ensures r.conn == this && r.poll == Ready(Ok(()))
    {
      UnitStep(this, Ready(Ok(())))
    }

    /** `poll_shutdown` shuts a temporary clone: always done, nothing changes. */
    function PollShutdown(): (r: UnitStep)
      ensures r.conn == this && r.poll == Ready(Ok(()))
    {
      UnitStep(this, Ready(Ok(())))
    }

    /** `connected()`: fresh default metadata, whatever the buffer holds. */
    function ConnectedInfo(): (c: Connected)
      ensures c == NewConnected()
    {
      NewConnected()
    }
  }

  /** One I/O operation the engine may issue on a connection. */
  datatype IoOp = Read(dst: seq<u8>) | Write(src: seq<u8>) | Flush | Shutdown

  /** The connection left behind by one operation. */
  function Apply(c: ConnectImplConformer, op: IoOp): ConnectImplConformer
  {
    match op
    case Read(dst) => c.PollRead(dst).conn
    case Write(src) => c.PollWrite(src).conn
    case Flush => c.PollFlush().conn
    case Shutdown => c.PollShutdown().conn
  }

  /** The connection left behind by a sequence of operations, in order. */
  function AfterOps(c: ConnectImplConformer, ops: seq<IoOp>): ConnectImplConformer
    decreases |ops|
  {
    if ops == [] then c else AfterOps(Apply(c, ops[0]), ops[1..])
  }

  /** No sequence of reads, writes, flushes and shutdowns changes a
      connection's buffer. */
  lemma {:induction false} OpsNeverChangeBuffer(c: ConnectImplConformer, ops: seq<IoOp>)
    ensures AfterOps(c, ops) == c
    ensures AfterOps(c, ops).buf == c.buf
    decreases |ops|
  {
    if ops != [] {
      OpsNeverChangeBuffer(Apply(c, ops[0]), ops[1..]);
    }
  }

  /** Hence every read, after any operations (writes included), sees the same
      bytes from the start of the buffer as the very first read. */
  lemma {:induction false} ReadsAlwaysFromStart(c: ConnectImplConformer, ops: seq<IoOp>, dst: seq<u8>)
    ensures AfterOps(c, ops).PollRead(dst) == c.PollRead(dst)
  {
    OpsNeverChangeBuffer(c, ops);
  }

  // ----- the connector -----

  /** `dst.path()`: the host request is built from the path alone. */
  function RequestFor(dst: Uri): (q: HostRequest)
    ensures q.path == dst.path
  {
    HostRequest(dst.path)
  }

  /** The prefix of the connector's error for a non-2xx status. */
  const ErrorCodePrefix: string := "Error code: "

  /** `format!("Error code: {}", status)`. */
  function ErrorText(status: u16): (s: string)
    ensures |s| > |ErrorCodePrefix| && s[..|ErrorCodePrefix|] == ErrorCodePrefix
    ensures Decimal.AllDigits(s[|ErrorCodePrefix|..])
    ensures Decimal.Parse(s[|ErrorCodePrefix|..]) == status as nat
    ensures s[|ErrorCodePrefix|] == '0' ==> status == 0 && s == ErrorCodePrefix + "0"
  {
    Decimal.ParseFormat(status as nat);
    var s := ErrorCodePrefix + Decimal.Format(status as nat);
    assert s[|ErrorCodePrefix|..] == Decimal.Format(status as nat);
    s
  }

  /** Reads the status back out of an error text: the code the error preserves. */
  function ParseErrorCode(text: string): Option<nat>
  {
    if |text| > |ErrorCodePrefix| && text[..|ErrorCodePrefix|] == ErrorCodePrefix
       && Decimal.AllDigits(text[|ErrorCodePrefix|..])
    then Some(Decimal.Parse(text[|ErrorCodePrefix|..]))
    else None
  }

  /** The "Successful 2xx" class of section 15.3 of RFC 9110: the first
      digit of the three-digit status code is 2. */
  predicate IsSuccessful(status: u16) {
    (status as int) / 100 == 2
  }

  /** The `match` inside `LocalConnect::call`. */
  function Classify(outcome: FetchOutcome): Result<ConnectImplConformer, string>
  {
    match outcome
    case FetchOk(status) =>
      if 200 <= status <= 299 then Ok(ConnectImplConformer([]))
      else Err(ErrorText(status))
    case FetchErr(message) => Err(message)
  }

  /** `LocalConnect`, hyper's connector here: a unit struct with no state. */
  datatype LocalConnect = LocalConnect
  {
    /** `poll_ready`: always ready; there is no state to change. */
    function PollReady(): (r: (LocalConnect, Poll<Result<(), string>>))
      ensures r.0 == this && r.1 == Ready(Ok(()))
    {
      (this, Ready(Ok(())))
    }

    /** `call(dst)`: asks the host to fetch `dst`'s path, waits for the fetch
        to settle, and returns an already-completed future holding exactly
        one of a connection or an error:
        a 2xx status gives a connection with an empty buffer, any other
        status the error "Error code: N", a rejection whose value is a JS string that string. */
    function Call(dst: Uri, fetch: HostRequest -> FetchOutcome): (r: Poll<Result<ConnectImplConformer, string>>)
      ensures r.Ready?
      ensures r.value.Ok? <==> fetch(RequestFor(dst)).FetchOk? && IsSuccessful(fetch(RequestFor(dst)).status)
      ensures r.value.Ok? ==> r.value.value.buf == []
      ensures fetch(RequestFor(dst)).FetchOk? && !IsSuccessful(fetch(RequestFor(dst)).status) ==>
                r.value == Err(ErrorText(fetch(RequestFor(dst)).status))
      ensures fetch(RequestFor(dst)).FetchErr? ==> r.value == Err(fetch(RequestFor(dst)).message)
    {
      Ready(Classify(fetch(RequestFor(dst))))
    }
  }

  /** The error text names the status it was made from. */
  lemma ErrorTextNamesStatus(status: u16)
    ensures ParseErrorCode(ErrorText(status)) == Some(status as nat)
  {
  }

  /** Distinct failing statuses give distinct errors. */
  lemma ErrorTextInjective(a: u16, b: u16)
    ensures ErrorText(a) == ErrorText(b) ==> a == b
  {
    ErrorTextNamesStatus(a);
    ErrorTextNamesStatus(b);
  }

  /** A fetch that settles with a non-2xx status fails the call with an error
      from which that status can be recovered. */
  lemma CallFailurePreservesStatus(c: LocalConnect, dst: Uri, fetch: HostRequest -> FetchOutcome)
    requires fetch(RequestFor(dst)).FetchOk? && !IsSuccessful(fetch(RequestFor(dst)).status)
    ensures c.Call(dst, fetch).value.Err?
    ensures ParseErrorCode(c.Call(dst, fetch).value.error) == Some(fetch(RequestFor(dst)).status as nat)
  {
    ErrorTextNamesStatus(fetch(RequestFor(dst)).status);
  }

  /** Scheme and authority play no part: two targets with the same path get
      the same outcome from the same host. */
  lemma CallUsesPathOnly(c: LocalConnect, u1: Uri, u2: Uri, fetch: HostRequest -> FetchOutcome)
    requires u1.path == u2.path
    ensures c.Call(u1, fetch) == c.Call(u2, fetch)
  {
  }

  /** A connection the connector hands out never yields a byte: every read,
      after whatever the engine wrote, reports 0 bytes (end of stream) and
      leaves the caller's buffer untouched. */
  lemma {:induction false} ConnectionReadsNothing(c: LocalConnect, dst: Uri, fetch: HostRequest -> FetchOutcome,
                               ops: seq<IoOp>, buf: seq<u8>)
    requires c.Call(dst, fetch).value.Ok?
    ensures AfterOps(c.Call(dst, fetch).value.value, ops).PollRead(buf).poll == Ready(Ok(0))
    ensures AfterOps(c.Call(dst, fetch).value.value, ops).PollRead(buf).dst == buf
  {
    OpsNeverChangeBuffer(c.Call(dst, fetch).value.value, ops);
  }

  // ----- the entry point -----

  /** What `start` does: whether it handed a target to `fetch_url`, and what
      it returned. */
  datatype StartOutcome = StartOutcome(fetched: Option<Uri>, result: Result<(), string>)

  /** The target `start` is built to request. */
  const BuiltInTarget: Uri := Uri(Some("http"), "127.0.0.1:3030", "/")

  /** `start`: a target whose scheme is not `http` is refused quietly,
      returning `Ok(())` without a fetch; an `http` target is fetched, and
      `fetch_url`'s error, if any, is returned as its text. */
  function Start(url: Uri, fetchUrl: Uri -> Result<(), string>): (r: StartOutcome)
    ensures r.fetched.None? <==> url.scheme != Some("http")
    ensures r.fetched.None? ==> r.result == Ok(())
    ensures r.fetched.Some? ==> r.fetched.value == url
    ensures r.fetched.Some? ==> (r.result.Ok? <==> fetchUrl(url).Ok?)
    ensures r.fetched.Some? && r.result.Err? ==> r.result.error == fetchUrl(url).error
  {
    if url.scheme != Some("http") then StartOutcome(None, Ok(()))
    else
      match fetchUrl(url)
      case Ok(_) => StartOutcome(Some(url), Ok(()))
      case Err(e) => StartOutcome(Some(url), Err(e))
  }

  /** The built-in target passes the guard. */
  lemma BuiltInTargetIsFetched(fetchUrl: Uri -> Result<(), string>)
    ensures Start(BuiltInTarget, fetchUrl).fetched == Some(BuiltInTarget)
  {
  }
}

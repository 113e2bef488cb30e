# hyper service combinators and the wasm client connector, in Dafny

This project models two small pieces of a fork of hyper that runs its HTTP
client inside a browser (wasm):

- **The service combinators** of `src/service/util.rs`. A tower `Service` has
  two operations, `poll_ready` and `call`. `service_fn(f)` turns a handler
  closure into a service; `shared(v)` makes a service that answers every
  request with a clone of `v` and cannot fail. Both are one datatype,
  `ServiceUtil.Service`, with the variants `ServiceFn` and `Shared`. The
  `FnMut` closure is a step function over its captured state. Each `&mut self`
  operation returns the service it leaves behind.
- **The connector of `examples/client.rs`**. `LocalConnect` is the connector
  hyper's client is built with. Its `call` asks the host's `fetch` for the
  target's path and waits for it to settle (`block_on`). It then classifies the
  outcome:
  - a 2xx status gives a connection with an empty buffer;
  - any other status gives the error `"Error code: N"`;
  - a rejected fetch whose rejection value is a JS string gives that string.
    A fetch rejects with an error object, not a string, so in practice the
    `unwrap()` at client.rs:145 panics; that panic is not modelled.

  The connection (`ConnectImplConformer`) reads through a temporary slice over
  its buffer, and writes, flushes and shuts down a temporary clone of it, so
  the buffer never changes.
  `start` lets only `http` targets through to the fetch.

The host's `fetch` is a parameter: a function from the `HostRequest` it is given
to the `FetchOutcome` it settles to. `start`'s call to `fetch_url` is a
parameter in the same way. Rust's `{}` rendering of the status is modelled in
`Decimal`, together with its inverse. With it the proofs show that the error
text keeps the status.

A connection never keeps a byte. `poll_read` reads a temporary slice
(client.rs:65) and `poll_write` appends to a temporary clone (client.rs:75).
So `Client.ConnectionReadsNothing` proves that a connection the connector
returns reports end of stream on every read, whatever was written to it.

Files: `core.dfy` (Option, Result, Poll, u8, u16), `service_util.dfy`,
`decimal.dfy`, `client.dfy`.

## Model

| member | source | states |
|---|---|---|
| ServiceUtil.NewServiceFn | src/service/util.rs:30-39 | `service_fn` builds a `ServiceFn` holding exactly the given closure and its captured state |
| ServiceUtil.NewShared | src/service/util.rs:42-44 | `shared` builds a `Shared` holding the value verbatim |
| ServiceUtil.Service.PollReady | src/service/util.rs:72-74 | `poll_ready` of either adapter answers `Ready(Ok(()))` and leaves the service unchanged; the closure is not invoked |
| ServiceUtil.Service.Call | src/service/util.rs:76-78 | `ServiceFn::call` returns the closure's outcome for the request unmodified; only the closure's captured state advances, and the closure itself is kept. `Shared::call` answers `Ok(value)` and changes nothing |
| ServiceUtil.Service.Clone | src/service/util.rs:87-97 | the clone holds the same closure and a copy of its captured state, or the same value |
| ServiceUtil.PollReadyIdempotent | src/service/util.rs:111-113 | any number of `poll_ready` calls on either adapter all answer `Ready(Ok(()))` and leave the service exactly as it was |
| ServiceUtil.ServiceFnIsTransparent | src/service/util.rs:76-78 | driven through any request sequence (poll_ready then call per request), a `ServiceFn` answers exactly what the bare closure answers, in order, and ends with the closure's final state |
| ServiceUtil.CloneAnswersAlike | src/service/util.rs:87-97 | a clone answers every request sequence exactly as the original does |
| ServiceUtil.SharedIgnoresRequest | src/service/util.rs:115-117 | for any two requests `Shared::call` gives the same answer, `Ok(value)`, and leaves the service unchanged |
| ServiceUtil.SharedNeverFails | src/service/util.rs:107-117 | over any number of calls, every answer of a `Shared` is `Ok(value)` (never an error) and the value never changes |
| Decimal.ParseFormat | examples/client.rs:140-143 | the decimal text of the status (Rust `{}` formatting) reads back as the same number |
| Decimal.FormatInjective | examples/client.rs:140-143 | distinct numbers have distinct decimal texts |
| Client.NewConnected | examples/client.rs:95 | `Connected::new()` carries no negotiated ALPN protocol and is not proxied |
| Client.ConnectImplConformer.PollRead | examples/client.rs:60-66 | a read answers `Ready(Ok(n))` with n = min(room, buffer length), fills the caller's buffer with the buffer's first n bytes, and leaves the connection unchanged |
| Client.ConnectImplConformer.PollWrite | examples/client.rs:70-76 | a write reports every byte as written and leaves the connection unchanged |
| Client.ConnectImplConformer.PollFlush | examples/client.rs:78-83 | a flush answers `Ready(Ok(()))` and leaves the connection unchanged |
| Client.ConnectImplConformer.PollShutdown | examples/client.rs:85-90 | a shutdown answers `Ready(Ok(()))` and leaves the connection unchanged |
| Client.ConnectImplConformer.ConnectedInfo | examples/client.rs:93-96 | `connected()` is the default metadata whatever the buffer holds |
| Client.OpsNeverChangeBuffer | examples/client.rs:59-91 | no sequence of reads, writes, flushes and shutdowns changes a connection |
| Client.ReadsAlwaysFromStart | examples/client.rs:65 | after any operations, writes included, a read sees the same bytes from the start of the buffer as the first read did |
| Client.RequestFor | examples/client.rs:133 | the host request carries the target's path |
| Client.ErrorText | examples/client.rs:140-143 | the error for a non-2xx status is "Error code: " followed by the status's decimal digits, which read back as the status |
| Client.LocalConnect.PollReady | examples/client.rs:122-127 | `LocalConnect::poll_ready` answers `Ready(Ok(()))`; the unit struct has no state to change |
| Client.LocalConnect.Call | examples/client.rs:129-148 | the call is already complete and holds exactly one outcome. It is `Ok` iff the fetch settled with a status in the 2xx class of RFC 9110 (section 15.3), and the connection then has an empty buffer. Another status gives `Err("Error code: N")`. A rejection whose value is a JS string gives `Err` with that string |
| Client.ErrorTextNamesStatus | examples/client.rs:140-143 | the status can be read back out of the error text |
| Client.ErrorTextInjective | examples/client.rs:140-143 | distinct failing statuses give distinct error texts |
| Client.CallFailurePreservesStatus | examples/client.rs:138-144 | a non-2xx status fails the call with an error from which that status is recovered |
| Client.CallUsesPathOnly | examples/client.rs:133 | two targets with the same path get the same outcome from the same host; scheme and authority play no part |
| Client.ConnectionReadsNothing | examples/client.rs:139 | a connection from the connector answers every read, after any operations, with 0 bytes and leaves the caller's buffer untouched |
| Client.Start | examples/client.rs:42-50 | a target whose scheme is not `http` returns `Ok(())` with no fetch. An `http` target is handed to `fetch_url`, and `start` fails iff that fails, with the same message |
| Client.BuiltInTargetIsFetched | examples/client.rs:30-45 | the built-in `http://127.0.0.1:3030` target passes the scheme guard |

## Left out

- The host `fetch` (`web_sys`, `wasm_bindgen`, `JsFuture`) and `get_response` (client.rs:131-136, 178-186) are foreign host calls. They are a function parameter.
- The `block_on` bridge (client.rs:130): only its settled outcome is modelled. Its blocking, and the missing way to cancel an in-flight fetch, are not.
- Futures, `Context` and wakers: every `Poll` is immediately `Ready`. A `ServiceFn` handler's future is represented by the outcome it settles to.
- Client.LocalConnect.Call: the `unwrap()`s in `call` panic when there is no window, when the request cannot be built, when the value is not a `Response`, or when a rejection is not a JS string. None of these panics is modelled: `FetchErr` always carries a string.
- ServiceUtil.SharedNeverFails: `Infallible` is not a Dafny type, since an empty type needs an unchecked witness. The error type is left generic, and "never an error" is proved instead.
- ServiceUtil.Service.Clone: a closure's clone is modelled as a copy of its captured state. A captured value with its own `Clone` behaviour (a shared handle, say) is not modelled.
- tokio's `AsyncRead for &[u8]` and `AsyncWrite for Vec<u8>` are not part of this model. `Client.ReadFromSlice` and `Client.WriteToVec` state the documented behaviour of std's `Read for &[u8]` (copy from the front, advance the slice) and `Vec::extend_from_slice` (append everything). `PollRead` and `PollWrite` rest on that assumption.
- hyper's `Connected` also has an `extra` field. It is not modelled.
- The rest of `fetch_url`'s body (client.rs:156-175) is not modelled: the client builder, `client.get`, the printing and the body-streaming loop. This is engine and I/O plumbing; `start` sees only its result.
- URI parsing, the panic hook, `println!` and the commented-out code (client.rs:27, 31-37, 41, 99-112, 151-154). The built-in target is written as an already-parsed `Uri`.
- The `Debug`, `Copy` and `PhantomData` parts of util.rs (lines 81-85, 99) carry no behaviour.

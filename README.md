# fnopt in Dafny

A model of `fnopt`, a Go library for the functional-options idiom, and of
the two example servers that use it.

The engine (`fnopt.go`) applies an ordered list of option functions to one
target value. It has four entry points. `From` and `FromE` mutate a target
the caller supplies. `New` and `NewE` start from Go's zero value. The `E`
variants take options that may fail: they stop at the first error and return
it unchanged. `FromE` leaves the target as the failing option left it, with
no rollback. `NewE` discards the value. The infallible variants adapt their
options with `optFnsToOptFnEs` and go through the same loop.

## Files

- `wrappers.dfy`: `Option` (Go's nil pointers and nil errors) and `Result`.
- `fnopt.dfy`: module `FnOpt`, the engine.
  - `Box<T>` is the pointer `*T`.
  - An `OptFn[T]` is a function `T -> T`.
  - An `OptFnE[T]` is a function `T -> Outcome<T, E>`. `Outcome` carries the
    value the option left behind whether it succeeded or failed.
  - `Apply` and `ApplyE` are the specifications: left-to-right folds, with
    `ApplyE` stopping at the first failure.
  - The methods `FromE`, `NewE`, `OptFnsToOptFnEs`, `From` and `New` keep
    the source's loops and heap cell and are proved against those folds.
  - Lemmas prove the folds' ordering, short-circuit, pass-through and
    no-rollback properties.
- `api.dfy`: module `Api`, the types the two servers share.
  - Go's 64-bit integers (`Int64`) and `time.Duration` as nanoseconds.
  - `Minute` is 60 000 000 000 ns; the default connection limit is 50.
  - Opaque `Listener` and `Cert` types and the servers' `Error` type.
  - `Setting` describes one option-constructor call. `LastTimeout`,
    `LastMaxConns` and `LastCert` give the argument of the last call that
    writes each field.
- `server.dfy`: module `ApiServer`, `example/api/server.go`.
- `server_e.dfy`: module `ApiServerE`, `example/api/server_e.go`.
- `fnopt_clients.dfy`: module `FnOptClients`. It restates the scenarios of
  `fnopt_test.go` as client methods whose assertions follow from the
  engine's contracts alone.

`net.Listen` is not modelled; its outcome is an input parameter of
`NewServer` and `NewServerE`. Go's zero value of `T` is the parameter `zero`
of `New` and `NewE`.

## Model

| member | source | states |
|---|---|---|
| `FnOpt.Box.constructor` | fnopt.go:25 | a fresh target cell holds exactly the value it is allocated with |
| `FnOpt.FromE` | fnopt.go:37-46 | the error is nil iff the in-order fold succeeds; on error it is the failing option's error unchanged; the target ends holding the fold's value, which on failure keeps the earlier options' effects and the failing option's partial effect |
| `FnOpt.NewE` | fnopt.go:24-33 | starting from the zero value: nil value iff error; error iff some option fails, and it is the first failure's error; otherwise a fresh target holding exactly the fold's result |
| `FnOpt.OptFnsToOptFnEs` | fnopt.go:48-58 | same length as the input; element i returns no error and has the same effect as option i on every value |
| `FnOpt.From` | fnopt.go:15-17 | the target ends holding the in-order composition of the options applied to its old value |
| `FnOpt.New` | fnopt.go:8-11 | always yields a target (never nil) holding the options composed over the zero value, the same value `From` gives from the zero value |
| `FnOpt.ApplyAppend` | fnopt.go:38-43 | applying infallible options `a + b` is applying `a`, then `b` to the result |
| `FnOpt.ApplyEAppend` | fnopt.go:38-45 | fallible options `a + b`: the options of `b` run on the value `a` left, and only if all of `a` succeeded; otherwise the result is `a`'s failure |
| `FnOpt.ApplyEStep` | fnopt.go:38-43 | option k receives exactly the value left by options 0..k-1 |
| `FnOpt.FailsAt` | fnopt.go:39-41 | if options 0..k-1 succeed and option k fails, the result is exactly option k's outcome: its error unchanged and the value as it left it, whatever follows it |
| `FnOpt.FailureHasCause` | fnopt.go:38-45 | every failure comes from some option k that failed on the value left by successful predecessors |
| `FnOpt.SuccessMeansAllSucceeded` | fnopt.go:38-45 | a successful fold means every option succeeded on the value its predecessors left |
| `FnOpt.AdaptedNeverFails` | fnopt.go:48-57 | options adapted to always succeed give a successful fold whose value is the infallible composition |
| `ApiServer.ServerWithTimeout` | example/api/server.go:37-41 | sets the timeout to its argument, negative values included, and leaves the other fields unchanged |
| `ApiServer.ServerWithMaxConns` | example/api/server.go:43-47 | sets the connection limit to its argument, unvalidated, and leaves the other fields unchanged |
| `ApiServer.ServerWithCert` | example/api/server.go:49-53 | sets the certificate, nil included, and leaves the other fields unchanged |
| `ApiServer.NewServer` | example/api/server.go:18-33 | a failed listen gives nil and the listen error; otherwise always a fresh server and no error, holding the options applied in order over the defaults |
| `ApiServer.LastWriterWins` | example/api/server.go:30 | for every field, the last option that writes it decides its value; unwritten fields keep their previous values |
| `ApiServer.NewServerConfigures` | example/api/server.go:24-30 | over the defaults: timeout one minute, 50 connections and a nil certificate unless an option overrides them, the last one winning; no options gives exactly the defaults |
| `ApiServerE.ServerEWithTimeout` | example/api/server_e.go:42-51 | fails iff the timeout is negative, then with an invalid-timeout error and the server untouched; otherwise (zero included) sets only the timeout |
| `ApiServerE.ServerEWithMaxConns` | example/api/server_e.go:53-62 | fails iff the limit is negative, then with an invalid-max-conns error and the server untouched; otherwise (zero included) sets only the limit |
| `ApiServerE.ServerEWithCert` | example/api/server_e.go:64-73 | fails iff the certificate is nil, then with the nil-cert error and the server untouched; otherwise sets only the certificate |
| `ApiServerE.OptOutcome` | example/api/server_e.go:42-73 | a single option succeeds with exactly its setting written iff the setting is accepted, else fails with its error and the server unchanged |
| `ApiServerE.AllAcceptedConfigures` | example/api/server_e.go:32 | when every option is accepted, applying them succeeds and each field is decided by the last option that writes it |
| `ApiServerE.FirstRejectionAborts` | example/api/server_e.go:32-35 | the first rejected option ends the run with its own error; the server holds exactly what the options before it wrote |
| `ApiServerE.SucceedsIffAllAccepted` | example/api/server_e.go:32-37 | the options succeed if and only if every option's argument is accepted |
| `ApiServerE.NewServerE` | example/api/server_e.go:20-38 | a failed listen gives nil and the listen error, whatever the options; otherwise nil server iff error, error iff the options fail over the defaults (and it is the first failure's error), else a fresh server holding their result |
| `ApiServerE.NewServerEConfigures` | example/api/server_e.go:26-37 | with accepted options: timeout one minute, 50 connections and a nil certificate unless an option overrides them, the last one winning |

## Left out

- `net.Listen` and the listener: network I/O. The listen outcome is an input `Result`, and the listener is an opaque value.
- `tls.Certificate` contents: foreign type. A certificate pointer is `Option<Cert>`, so only nil versus non-nil is modelled.
- Error messages: `fmt.Errorf` and `errors.New` text is not modelled, and neither is `errors.Is`. Each server error is a constructor carrying the rejected argument.
- Options are pure functions of the target's value. They cannot keep the pointer, alias other objects or have side effects. "Later options never run" is therefore stated as "later options cannot influence the result" (`FnOpt.FailsAt`). Side-effecting options, such as a counter, are not modelled.
- Closure capture (`_fn := fn`) is modelled by binding `fn` before building the lambda.
- `FnOpt.OptFnsToOptFnEs`: it grows the result sequence in index order. It does not pre-fill a `make`d slice with nil functions.
- `FnOpt.From` and `FnOpt.New`: the adapted options' error type is `()` instead of Go's `error`. Those options never fail, so no error is ever observed.
- `FnOpt.New`: Go's version would return whatever pointer `NewE` gives. The model proves that pointer is never nil and returns a non-nullable `Box`.
- 64-bit widths: timeouts and connection limits are `Int64` (Go's `int` is taken as 64 bits). They are only stored and compared, so no overflow can arise.
- `example/main.go`: process entry point with network I/O and `log.Fatal`, no logic of its own.
- `example/somepkg/server.go` and `example/somepkg/server_e.go`: they call `fnopt.NewFrom` and `fnopt.NewFromE`, which `fnopt.go` does not define. Their option constructors duplicate those of package `api`.
- Concurrency: the engine has none and offers no synchronisation.

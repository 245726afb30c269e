/**
  The example server of package api whose options cannot fail
  (example/api/server.go): each option writes one field, unvalidated, and
  NewServer applies them over the defaults with fnopt.From.
 */
module ApiServer {
  import opened Wrappers
  import opened Api
  import FnOpt

  /** The `Server` struct. */
  datatype Server = Server(listener: Listener, timeout: Duration, maxConns: Int64, cert: Option<Cert>)

  /** `serverOptFn`, that is `fnopt.OptFn[Server]`. */
  type ServerOptFn = Server -> Server

  /** The struct literal NewServer starts from: one-minute timeout, 50 connections, nil cert. */
  function Defaults(l: Listener): Server
  {
    Server(l, Minute, DefaultMaxConns, None)
  }

  /** ServerWithTimeout: sets the timeout, any value including a negative one, and nothing else. */
  function ServerWithTimeout(timeout: Duration): (opt: ServerOptFn)
    ensures forall s :: opt(s).timeout == timeout
    ensures forall s :: opt(s).listener == s.listener && opt(s).maxConns == s.maxConns && opt(s).cert == s.cert
  {
    (cfg: Server) => cfg.(timeout := timeout)
  }

  /** ServerWithMaxConns: sets the connection limit, any value, and nothing else. */
  function ServerWithMaxConns(maxConns: Int64): (opt: ServerOptFn)
    ensures forall s :: opt(s).maxConns == maxConns
    ensures forall s :: opt(s).listener == s.listener && opt(s).timeout == s.timeout && opt(s).cert == s.cert
  {
    (cfg: Server) => cfg.(maxConns := maxConns)
  }

  /** ServerWithCert: sets the certificate, nil included, and nothing else. */
  function ServerWithCert(cert: Option<Cert>): (opt: ServerOptFn)
    ensures forall s :: opt(s).cert == cert
    ensures forall s :: opt(s).listener == s.listener && opt(s).timeout == s.timeout && opt(s).maxConns == s.maxConns
  {
    (cfg: Server) => cfg.(cert := cert)
  }

  /** The option a setting stands for. */
  function Opt(st: Setting): ServerOptFn
  {
    match st
    case Timeout(d) => ServerWithTimeout(d)
    case MaxConns(n) => ServerWithMaxConns(n)
    case Certificate(c) => ServerWithCert(c)
  }

  /** The options a sequence of settings stands for, in the same order. */
  function Opts(ss: seq<Setting>): seq<ServerOptFn>
  {
    seq(|ss|, i requires 0 <= i < |ss| => Opt(ss[i]))
  }

  /** `s` with every field that `ss` writes set by the last setting that writes it. */
  function Configured(s: Server, ss: seq<Setting>): Server
  {
    Server(s.listener, LastTimeout(ss, s.timeout), LastMaxConns(ss, s.maxConns), LastCert(ss, s.cert))
  }

  /**
    Options apply in order, so for every field the last option that writes
    it decides its value; fields no option writes keep their old values.
   */
  lemma {:induction false} LastWriterWins(s: Server, ss: seq<Setting>)
    ensures FnOpt.Apply(s, Opts(ss)) == Configured(s, ss)
    decreases |ss|
  {
    if ss == [] {
      assert Opts(ss) == [];
    } else {
      var init, last := ss[..|ss| - 1], ss[|ss| - 1];
      assert Opts(ss) == Opts(init) + [Opt(last)];
      FnOpt.ApplyAppend(s, Opts(init), [Opt(last)]);
      LastWriterWins(s, init);
      assert [Opt(last)][1..] == [];
    }
  }

  /**
    NewServer: when the listen fails, returns nil and its error; otherwise
    always a server (never an error) built by applying the options over the
    defaults. The outcome of `net.Listen` is an input.
   */
  method NewServer(listen: Result<Listener, Error>, fns: seq<ServerOptFn>)
    returns (srv: FnOpt.Box?<Server>, err: Option<Error>)
    ensures listen.Failure? ==> srv == null && err == Some(listen.error)
    ensures listen.Success? ==>
              srv != null && fresh(srv) && err.None? && srv.val == FnOpt.Apply(Defaults(listen.value), fns)
  {
    if listen.Failure? {
      return null, Some(listen.error);
    }
    var s := new FnOpt.Box(Defaults(listen.value));
    FnOpt.From(s, fns);
    return s, None;
  }

  /**
    A server built from option-constructor calls has a one-minute timeout,
    50 connections and a nil certificate except where a call overrides them,
    the last such call winning.
   */
  lemma NewServerConfigures(l: Listener, ss: seq<Setting>)
    ensures FnOpt.Apply(Defaults(l), Opts(ss))
         == Server(l, LastTimeout(ss, Minute), LastMaxConns(ss, DefaultMaxConns), LastCert(ss, None))
  {
    LastWriterWins(Defaults(l), ss);
  }
}

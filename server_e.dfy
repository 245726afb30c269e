/**
  The example server of package api whose options validate their argument
  (example/api/server_e.go): each option either rejects its argument,
  leaving the server untouched, or writes one field; NewServerE applies them
  over the defaults with fnopt.FromE.
 */
module ApiServerE {
  import opened Wrappers
  import opened Api
  import FnOpt

  /** The `ServerE` struct. */
  datatype ServerE = ServerE(listener: Listener, timeout: Duration, maxConns: Int64, cert: Option<Cert>)

  /** `serverEOptFn`, that is `fnopt.OptFnE[ServerE]`. */
  type ServerEOptFn = ServerE -> FnOpt.Outcome<ServerE, Error>

  /** The struct literal NewServerE starts from: one-minute timeout, 50 connections, nil cert. */
  function Defaults(l: Listener): ServerE
  {
    ServerE(l, Minute, DefaultMaxConns, None)
  }

  /**
    ServerEWithTimeout: rejects a negative timeout without touching the
    server; otherwise (zero included) sets the timeout and nothing else.
   */
  function ServerEWithTimeout(timeout: Duration): (opt: ServerEOptFn)
    ensures forall s :: opt(s).Fail? <==> timeout < 0
    ensures forall s :: opt(s).Fail? ==> opt(s).value == s && opt(s).error == InvalidTimeout(timeout)
    ensures forall s :: opt(s).Ok? ==>
              && opt(s).value.timeout == timeout
              && opt(s).value.listener == s.listener
              && opt(s).value.maxConns == s.maxConns
              && opt(s).value.cert == s.cert
  {
    (cfg: ServerE) =>
      if timeout < 0 then FnOpt.Fail(cfg, InvalidTimeout(timeout))
      else FnOpt.Ok(cfg.(timeout := timeout))
  }

  /**
    ServerEWithMaxConns: rejects a negative limit without touching the
    server; otherwise (zero included) sets the limit and nothing else.
   */
  function ServerEWithMaxConns(maxConns: Int64): (opt: ServerEOptFn)
    ensures forall s :: opt(s).Fail? <==> maxConns < 0
    ensures forall s :: opt(s).Fail? ==> opt(s).value == s && opt(s).error == InvalidMaxConns(maxConns)
    ensures forall s :: opt(s).Ok? ==>
              && opt(s).value.maxConns == maxConns
              && opt(s).value.listener == s.listener
              && opt(s).value.timeout == s.timeout
              && opt(s).value.cert == s.cert
  {
    (cfg: ServerE) =>
      if maxConns < 0 then FnOpt.Fail(cfg, InvalidMaxConns(maxConns))
      else FnOpt.Ok(cfg.(maxConns := maxConns))
  }

  /**
    ServerEWithCert: rejects a nil certificate without touching the server;
    otherwise sets the certificate and nothing else.
   */
  function ServerEWithCert(cert: Option<Cert>): (opt: ServerEOptFn)
    ensures forall s :: opt(s).Fail? <==> cert.None?
    ensures forall s :: opt(s).Fail? ==> opt(s).value == s && opt(s).error == InvalidNilCert
    ensures forall s :: opt(s).Ok? ==>
              && opt(s).value.cert == cert
              && opt(s).value.listener == s.listener
              && opt(s).value.timeout == s.timeout
              && opt(s).value.maxConns == s.maxConns
  {
    (cfg: ServerE) =>
      if cert.None? then FnOpt.Fail(cfg, InvalidNilCert)
      else FnOpt.Ok(cfg.(cert := cert))
  }

  /** The option a setting stands for. */
  function Opt(st: Setting): ServerEOptFn
  {
    match st
    case Timeout(d) => ServerEWithTimeout(d)
    case MaxConns(n) => ServerEWithMaxConns(n)
    case Certificate(c) => ServerEWithCert(c)
  }

  /** The options a sequence of settings stands for, in the same order. */
  function Opts(ss: seq<Setting>): seq<ServerEOptFn>
  {
    seq(|ss|, i requires 0 <= i < |ss| => Opt(ss[i]))
  }

  /** The settings the validating options accept. */
  predicate Accepted(st: Setting)
  {
    match st
    case Timeout(d) => d >= 0
    case MaxConns(n) => n >= 0
    case Certificate(c) => c.Some?
  }

  /** The error a rejected setting is reported with. */
  function Rejection(st: Setting): Error
  {
    match st
    case Timeout(d) => InvalidTimeout(d)
    case MaxConns(n) => InvalidMaxConns(n)
    case Certificate(_) => InvalidNilCert
  }

  /** `s` with every field that `ss` writes set by the last setting that writes it. */
  function Configured(s: ServerE, ss: seq<Setting>): ServerE
  {
    ServerE(s.listener, LastTimeout(ss, s.timeout), LastMaxConns(ss, s.maxConns), LastCert(ss, s.cert))
  }

  /** A single option fails exactly on a rejected setting, with its error, leaving the server as it was. */
  lemma OptOutcome(st: Setting, s: ServerE)
    ensures Opt(st)(s) == if Accepted(st) then FnOpt.Ok(Configured(s, [st])) else FnOpt.Fail(s, Rejection(st))
  {
  }

  /**
    When every setting is accepted, the options succeed and each field is
    decided by the last option that writes it.
   */
  lemma {:induction false} AllAcceptedConfigures(s: ServerE, ss: seq<Setting>)
    requires forall i :: 0 <= i < |ss| ==> Accepted(ss[i])
    ensures FnOpt.ApplyE(s, Opts(ss)) == FnOpt.Ok(Configured(s, ss))
    decreases |ss|
  {
    if ss == [] {
      assert Opts(ss) == [];
    } else {
      var init, last := ss[..|ss| - 1], ss[|ss| - 1];
      assert Opts(ss) == Opts(init) + [Opt(last)];
      FnOpt.ApplyEAppend(s, Opts(init), [Opt(last)]);
      AllAcceptedConfigures(s, init);
      OptOutcome(last, Configured(s, init));
      assert [Opt(last)][1..] == [];
    }
  }

  /**
    The first rejected setting aborts: the options fail with its error, and
    the server keeps exactly what the settings before it wrote.
   */
  lemma FirstRejectionAborts(s: ServerE, ss: seq<Setting>, k: nat)
    requires k < |ss|
    requires forall i :: 0 <= i < k ==> Accepted(ss[i])
    requires !Accepted(ss[k])
    ensures FnOpt.ApplyE(s, Opts(ss)) == FnOpt.Fail(Configured(s, ss[..k]), Rejection(ss[k]))
  {
    var opts := Opts(ss);
    assert opts[..k] == Opts(ss[..k]);
    AllAcceptedConfigures(s, ss[..k]);
    OptOutcome(ss[k], Configured(s, ss[..k]));
    FnOpt.FailsAt(s, opts, k);
  }

  /** The options succeed if and only if every setting is accepted. */
  lemma SucceedsIffAllAccepted(s: ServerE, ss: seq<Setting>)
    ensures FnOpt.ApplyE(s, Opts(ss)).Ok? <==> forall i :: 0 <= i < |ss| ==> Accepted(ss[i])
  {
    if FnOpt.ApplyE(s, Opts(ss)).Ok? {
      forall i | 0 <= i < |ss| ensures Accepted(ss[i]) {
        FnOpt.SuccessMeansAllSucceeded(s, Opts(ss), i);
        OptOutcome(ss[i], FnOpt.ApplyE(s, Opts(ss)[..i]).value);
      }
    } else if forall i :: 0 <= i < |ss| ==> Accepted(ss[i]) {
      AllAcceptedConfigures(s, ss);
    }
  }

  /**
    NewServerE: when the listen fails, returns nil and its error before any
    option runs; otherwise applies the options over the defaults and returns
    the server, or nil and the first failing option's error. The outcome of
    `net.Listen` is an input.
   */
  method NewServerE(listen: Result<Listener, Error>, opts: seq<ServerEOptFn>)
    returns (srv: FnOpt.Box?<ServerE>, err: Option<Error>)
    ensures listen.Failure? ==> srv == null && err == Some(listen.error)
    ensures listen.Success? ==>
              && (srv == null <==> err.Some?)
              && (err.Some? <==> FnOpt.ApplyE(Defaults(listen.value), opts).Fail?)
              && (err.Some? ==> err.value == FnOpt.ApplyE(Defaults(listen.value), opts).error)
              && (srv != null ==> fresh(srv) && FnOpt.ApplyE(Defaults(listen.value), opts) == FnOpt.Ok(srv.val))
  {
    if listen.Failure? {
      return null, Some(listen.error);
    }
    var s := new FnOpt.Box(Defaults(listen.value));
    err := FnOpt.FromE(s, opts);
    if err.Some? {
      return null, err;
    }
    return s, None;
  }

  /**
    A server built from accepted option-constructor calls has a one-minute
    timeout, 50 connections and a nil certificate except where a call
    overrides them, the last such call winning.
   */
  lemma NewServerEConfigures(l: Listener, ss: seq<Setting>)
    requires forall i :: 0 <= i < |ss| ==> Accepted(ss[i])
    ensures FnOpt.ApplyE(Defaults(l), Opts(ss))
         == FnOpt.Ok(ServerE(l, LastTimeout(ss, Minute), LastMaxConns(ss, DefaultMaxConns), LastCert(ss, None)))
  {
    AllAcceptedConfigures(Defaults(l), ss);
  }
}

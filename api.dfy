/**
  Types shared by the two example servers of package api: Go's 64-bit
  integers, `time.Duration` in nanoseconds, opaque listener and certificate
  handles, the errors the servers report, and a description of a sequence
  of option-constructor calls.
 */
module Api {
  import opened Wrappers

  /** Go's `int64` (and `int` on a 64-bit platform). */
  newtype Int64 = x: int | -0x8000_0000_0000_0000 <= x < 0x8000_0000_0000_0000

  /** Go's `time.Duration`: a signed count of nanoseconds. */
  type Duration = Int64

  /** `time.Minute`. */
  const Minute: Duration := 60_000_000_000

  /** The connection limit both servers start with. */
  const DefaultMaxConns: Int64 := 50

  /** An opaque `net.Listener`, identified by the address it listens on. */
  datatype Listener = Listener(addr: string)

  /** An opaque `tls.Certificate`; only whether a pointer to one is nil matters. */
  datatype Cert = Cert(id: nat)

  /** The errors the servers can return. */
  datatype Error =
    | InvalidTimeout(timeout: Duration)   // "invalid timeout less than 0"
    | InvalidMaxConns(maxConns: Int64)    // "invalid max conns less than 0"
    | InvalidNilCert                      // "invalid nil cert"
    | ListenError(cause: string)          // whatever `net.Listen` reported

  /** One option-constructor call: `...WithTimeout(d)`, `...WithMaxConns(n)` or `...WithCert(c)`. */
  datatype Setting =
    | Timeout(timeout: Duration)
    | MaxConns(maxConns: Int64)
    | Certificate(cert: Option<Cert>)

  /** The argument of the last timeout setting in `ss`, or `dflt` when there is none. */
  function LastTimeout(ss: seq<Setting>, dflt: Duration): (d: Duration)
    ensures (forall k :: 0 <= k < |ss| ==> !ss[k].Timeout?) ==> d == dflt
    ensures forall k :: 0 <= k < |ss| && ss[k].Timeout? && (forall j :: k < j < |ss| ==> !ss[j].Timeout?)
                        ==> d == ss[k].timeout
    decreases |ss|
  {
    if ss == [] then dflt
    else if ss[|ss| - 1].Timeout? then ss[|ss| - 1].timeout
    else
      var init := ss[..|ss| - 1];
      assert forall k :: 0 <= k < |init| ==> init[k] == ss[k];
      LastTimeout(init, dflt)
  }

  /** The argument of the last connection-limit setting in `ss`, or `dflt` when there is none. */
  function LastMaxConns(ss: seq<Setting>, dflt: Int64): (n: Int64)
    ensures (forall k :: 0 <= k < |ss| ==> !ss[k].MaxConns?) ==> n == dflt
    ensures forall k :: 0 <= k < |ss| && ss[k].MaxConns? && (forall j :: k < j < |ss| ==> !ss[j].MaxConns?)
                        ==> n == ss[k].maxConns
    decreases |ss|
  {
    if ss == [] then dflt
    else if ss[|ss| - 1].MaxConns? then ss[|ss| - 1].maxConns
    else
      var init := ss[..|ss| - 1];
      assert forall k :: 0 <= k < |init| ==> init[k] == ss[k];
      LastMaxConns(init, dflt)
  }

  /** The argument of the last certificate setting in `ss`, or `dflt` when there is none. */
  function LastCert(ss: seq<Setting>, dflt: Option<Cert>): (c: Option<Cert>)
    ensures (forall k :: 0 <= k < |ss| ==> !ss[k].Certificate?) ==> c == dflt
    ensures forall k :: 0 <= k < |ss| && ss[k].Certificate? && (forall j :: k < j < |ss| ==> !ss[j].Certificate?)
                        ==> c == ss[k].cert
    decreases |ss|
  {
    if ss == [] then dflt
    else if ss[|ss| - 1].Certificate? then ss[|ss| - 1].cert
    else
      var init := ss[..|ss| - 1];
      assert forall k :: 0 <= k < |init| ==> init[k] == ss[k];
      LastCert(init, dflt)
  }
}

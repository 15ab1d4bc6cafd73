/** Small types and helpers shared by every component of the model. */
module Prelude {

  datatype Option<+T> = None | Some(value: T)

  /** The kinds of error the daemon can tell apart.  `Reply` is an error the server itself answered
      with, `Malformed` is a value that came back but could not be parsed, `Transport` is everything
      that breaks below the protocol (dial failure, timeout, broken connection), and `Canceled` is a
      cancelled context. */
  datatype Error = Transport | Reply | Malformed | Canceled

  datatype Result<+T> = Ok(value: T) | Err(error: Error) {

    function Failed(): Option<Error> {
      if Ok? then None else Some(error)
    }
  }

  /** Choices the model leaves open: how long, which, and whether. */
  method AnyNat() returns (n: nat) {
    n := *;
  }

  method AnyText() returns (s: string) {
    s := *;
  }

  method Chance() returns (b: bool) {
    b := *;
  }

  /** A Go map read: an absent key reads as zero. */
  function Get(m: map<string, int>, k: string): int {
    if k in m then m[k] else 0
  }

  /** Entry-wise sum and difference. */
  function Plus(m: map<string, int>, d: map<string, int>): (r: map<string, int>)
    ensures r.Keys == m.Keys + d.Keys
    ensures forall a {:trigger Get(r, a)} :: Get(r, a) == Get(m, a) + Get(d, a)
  {
    map a | a in m.Keys + d.Keys :: Get(m, a) + Get(d, a)
  }

  function Minus(m: map<string, int>, d: map<string, int>): (r: map<string, int>)
    ensures r.Keys == m.Keys + d.Keys
    ensures forall a {:trigger Get(r, a)} :: Get(r, a) == Get(m, a) - Get(d, a)
  {
    map a | a in m.Keys + d.Keys :: Get(m, a) - Get(d, a)
  }

  predicate Distinct(s: seq<string>) {
    forall i, j :: 0 <= i < j < |s| ==> s[i] != s[j]
  }

  function Elements(s: seq<string>): set<string> {
    set x | x in s
  }
}

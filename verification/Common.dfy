/** Small vocabulary shared by every module of the model. */
module Common {

  datatype Option<+T> = None | Some(value: T) {

    function GetOr(default: T): T {
      if Some? then value else default
    }
  }

  function Max(a: int, b: int): int {
    if a < b then b else a
  }

  function Min(a: int, b: int): int {
    if a < b then a else b
  }

  /** The greatest element of a non-empty finite set of identifiers. */
  ghost function Greatest(s: set<nat>): (m: nat)
    requires s != {}
    ensures m in s
    ensures forall x :: x in s ==> x <= m
  {
    var x :| x in s;
    var rest := s - {x};
    assert s == rest + {x};
    if rest == {} then x else
      var m := Greatest(rest);
      if x <= m then m else x
  }

  /** Positions a, a+1, ... of a signal are its maximal constant run of `v` at the end. */
  ghost predicate Streak<T>(signal: seq<Option<T>>, a: nat, v: T) {
    && a < |signal|
    && (forall i :: a <= i < |signal| ==> signal[i] == Some(v))
    && (a == 0 || signal[a - 1] != Some(v))
  }

  lemma StreakUnique<T>(signal: seq<Option<T>>, a: nat, b: nat, v: T, w: T)
    requires Streak(signal, a, v) && Streak(signal, b, w)
    ensures a == b && v == w
  {
    assert signal[|signal| - 1] == Some(v) == Some(w);
  }

  /** A streak that held before the last position either goes on or a new one starts there. */
  lemma StreakExtends<T>(signal: seq<Option<T>>, b: nat, v: T)
    requires signal != [] && signal[|signal| - 1] == Some(v)
    requires
      var past := signal[..|signal| - 1];
      Streak(past, b, v) || (b == |past| && (past == [] || past[b - 1] != Some(v)))
    ensures Streak(signal, b, v)
  {
  }

  /** The positions from `from` on at which a signal is raised. */
  ghost function Raised(signal: seq<bool>, from: nat): set<nat> {
    set i: nat | from <= i < |signal| && signal[i]
  }

  lemma RaisedGrows(signal: seq<bool>, last: bool, from: nat)
    requires from <= |signal|
    ensures |Raised(signal + [last], from)| == |Raised(signal, from)| + if last then 1 else 0
  {
    var longer := signal + [last];
    assert forall i :: 0 <= i < |signal| ==> longer[i] == signal[i];
    assert Raised(longer, from) == if last then Raised(signal, from) + {|signal|} else Raised(signal, from);
  }

  // ---- sequences ---------------------------------------------------------

  /** An element put in at a position is one more of what is there. */
  lemma Spliced<T>(r: seq<T>, at: nat, x: T)
    requires at <= |r|
    ensures multiset(r[..at] + [x] + r[at..]) == multiset(r) + multiset{x}
  {
    assert r == r[..at] + r[at..];
  }

  /** One element leaves what is to come and joins what has been. */
  lemma Advanced<T>(s: seq<T>, i: nat)
    requires i < |s|
    ensures s[i..] == [s[i]] + s[i + 1..] && s[..i + 1] == s[..i] + [s[i]]
  {
  }

  lemma Reassociate<T>(a: seq<T>, x: T, b: seq<T>)
    ensures a + ([x] + b) == a + [x] + b
  {
  }
}

/** Process keys in the order `sorted` gives them: by pid, then by name. */
module ProcessOrder {
  import opened Common

  datatype ProcKey = ProcKey(pid: int, name: string)

  predicate NameLess(a: string, b: string) {
    if b == "" then false
    else if a == "" then true
    else a[0] < b[0] || (a[0] == b[0] && NameLess(a[1..], b[1..]))
  }

  predicate Less(a: ProcKey, b: ProcKey) {
    a.pid < b.pid || (a.pid == b.pid && NameLess(a.name, b.name))
  }

  lemma NameTotal(a: string, b: string)
    ensures a == b || NameLess(a, b) || NameLess(b, a)
    ensures !(NameLess(a, b) && NameLess(b, a))
    ensures !NameLess(a, a)
  {
  }

  lemma NameTransitive(a: string, b: string, c: string)
    requires NameLess(a, b) && NameLess(b, c)
    ensures NameLess(a, c)
  {
  }

  predicate IsLeast(s: set<ProcKey>, m: ProcKey) {
    m in s && forall o :: o in s ==> o == m || Less(m, o)
  }

  lemma LeastUnique(s: set<ProcKey>, a: ProcKey, b: ProcKey)
    requires IsLeast(s, a) && IsLeast(s, b)
    ensures a == b
  {
    NameTotal(a.name, b.name);
  }

  method FindLeast(s: set<ProcKey>) returns (m: ProcKey)
    requires s != {}
    ensures IsLeast(s, m)
  {
    m :| m in s;
    var left := s - {m};
    while left != {}
      invariant left <= s && IsLeast(s - left, m)
      decreases |left|
    {
      var o :| o in left;
      NameTotal(o.name, m.name);
      if Less(o, m) {
        forall x | x in s - left && x != m ensures Less(o, x) {
          LessTransitive(o, m, x);
        }
        m := o;
      }
      left := left - {o};
    }
    assert s - left == s;
  }

  lemma LessTransitive(a: ProcKey, b: ProcKey, c: ProcKey)
    requires Less(a, b) && Less(b, c)
    ensures Less(a, c)
  {
    if a.pid == b.pid == c.pid {
      NameTransitive(a.name, b.name, c.name);
    }
  }

  lemma {:induction false} LeastExists(s: set<ProcKey>)
    requires s != {}
    ensures exists m :: IsLeast(s, m)
  {
    var x :| x in s;
    if s == {x} {
      assert IsLeast(s, x);
    } else {
      LeastExists(s - {x});
      var m :| IsLeast(s - {x}, m);
      NameTotal(x.name, m.name);
      if Less(x, m) {
        forall o | o in s - {x} && o != m ensures Less(x, o) {
          LessTransitive(x, m, o);
        }
        assert IsLeast(s, x);
      } else {
        assert IsLeast(s, m);
      }
    }
  }

  /** The elements of a set in ascending order. */
  ghost function Sorted(s: set<ProcKey>): (r: seq<ProcKey>)
    ensures |r| == |s|
    ensures forall k :: k in r <==> k in s
  {
    if s == {} then []
    else
      LeastExists(s);
      var m :| IsLeast(s, m);
      [m] + Sorted(s - {m})
  }

  predicate Ascending(r: seq<ProcKey>) {
    r == [] || ((forall k :: k in r[1..] ==> Less(r[0], k)) && Ascending(r[1..]))
  }

  predicate NoDuplicates(keys: seq<ProcKey>) {
    forall i, j :: 0 <= i < j < |keys| ==> keys[i] != keys[j]
  }

  lemma SortedAscends(s: set<ProcKey>)
    ensures Ascending(Sorted(s))
  {
  }

  lemma {:induction false} AscendingDistinct(r: seq<ProcKey>)
    requires Ascending(r)
    ensures NoDuplicates(r)
  {
    if r != [] {
      AscendingDistinct(r[1..]);
      NameTotal(r[0].name, r[0].name);
      forall i, j | 0 <= i < j < |r| ensures r[i] != r[j] {
        assert r[j] == r[1..][j - 1];
        if i > 0 {
          assert r[i] == r[1..][i - 1];
        } else {
          assert r[j] in r[1..];
          assert Less(r[0], r[j]);
        }
      }
    }
  }

  lemma SortedDistinct(s: set<ProcKey>)
    ensures NoDuplicates(Sorted(s))
  {
    SortedAscends(s);
    AscendingDistinct(Sorted(s));
  }

  lemma SortedTake(s: set<ProcKey>, m: ProcKey)
    requires IsLeast(s, m)
    ensures Sorted(s) == [m] + Sorted(s - {m})
  {
    LeastUnique(s, m, Sorted(s)[0]);
  }

  /** Selection sort over whatever order the set yields. */
  method Sort(s: set<ProcKey>) returns (r: seq<ProcKey>)
    ensures r == Sorted(s)
  {
    hide Sorted, IsLeast;
    r := [];
    var left := s;
    while left != {}
      invariant r + Sorted(left) == Sorted(s)
      decreases |left|
    {
      var m := FindLeast(left);
      assert m in left;
      SortedTake(left, m);
      r := r + [m];
      left := left - {m};
    }
  }
}

/** Small shared vocabulary: optional values, and finite sums with the one
    reordering fact (Partition) that the aggregate queries rest on. */
module Common {

  datatype Option<+T> = None | Some(value: T)

  /** Sum of f over a sequence, last element outermost so that appending a row
      unfolds the definition once. */
  ghost function Sum<T>(s: seq<T>, f: T -> int): int
  {
    if s == [] then 0 else Sum(s[..|s| - 1], f) + f(s[|s| - 1])
  }

  /** Sum of f over a finite set, in no particular order. */
  ghost function SetSum<K>(ks: set<K>, f: K -> int): int
    decreases |ks|
  {
    if ks == {} then 0 else
      var k :| k in ks;
      f(k) + SetSum(ks - {k}, f)
  }

  lemma {:induction false} SetSumRemove<K>(ks: set<K>, k: K, f: K -> int)
    requires k in ks
    ensures SetSum(ks, f) == f(k) + SetSum(ks - {k}, f)
    decreases |ks|
  {
    var c :| c in ks && SetSum(ks, f) == f(c) + SetSum(ks - {c}, f);
    if c != k {
      SetSumRemove(ks - {c}, k, f);
      SetSumRemove(ks - {k}, c, f);
      assert ks - {c} - {k} == ks - {k} - {c};
    }
  }

  lemma {:induction false} SetSumCongruent<K>(ks: set<K>, f: K -> int, g: K -> int)
    requires forall k :: k in ks ==> f(k) == g(k)
    ensures SetSum(ks, f) == SetSum(ks, g)
    decreases |ks|
  {
    if ks != {} {
      var c :| c in ks;
      SetSumRemove(ks, c, f);
      SetSumRemove(ks, c, g);
      SetSumCongruent(ks - {c}, f, g);
    }
  }

  lemma {:induction false} SetSumAdd<K>(ks: set<K>, f: K -> int, g: K -> int, h: K -> int)
    requires forall k :: k in ks ==> h(k) == f(k) + g(k)
    ensures SetSum(ks, h) == SetSum(ks, f) + SetSum(ks, g)
    decreases |ks|
  {
    if ks != {} {
      var c :| c in ks;
      SetSumRemove(ks, c, f);
      SetSumRemove(ks, c, g);
      SetSumRemove(ks, c, h);
      SetSumAdd(ks - {c}, f, g, h);
    }
  }

  lemma {:induction false} SetSumMonotone<K>(ks: set<K>, f: K -> int, g: K -> int)
    requires forall k :: k in ks ==> f(k) <= g(k)
    ensures SetSum(ks, f) <= SetSum(ks, g)
    decreases |ks|
  {
    if ks != {} {
      var c :| c in ks;
      SetSumRemove(ks, c, f);
      SetSumRemove(ks, c, g);
      SetSumMonotone(ks - {c}, f, g);
    }
  }

  lemma {:induction false} SumCongruent<T>(s: seq<T>, f: T -> int, g: T -> int)
    requires forall x :: x in s ==> f(x) == g(x)
    ensures Sum(s, f) == Sum(s, g)
  {
    if s != [] {
      SumCongruent(s[..|s| - 1], f, g);
    }
  }

  lemma {:induction false} SumMonotone<T>(s: seq<T>, f: T -> int, g: T -> int)
    requires forall x :: x in s ==> f(x) <= g(x)
    ensures Sum(s, f) <= Sum(s, g)
  {
    if s != [] {
      SumMonotone(s[..|s| - 1], f, g);
    }
  }

  lemma {:induction false} SumAdd<T>(s: seq<T>, f: T -> int, g: T -> int, h: T -> int)
    requires forall x :: x in s ==> h(x) == f(x) + g(x)
    ensures Sum(s, h) == Sum(s, f) + Sum(s, g)
  {
    if s != [] {
      SumAdd(s[..|s| - 1], f, g, h);
    }
  }

  /** Adding one row's value v under key k to every group of a grouped sum
      moves the total by v exactly when k is one of the groups. */
  lemma {:induction false} SetSumOneKey<K>(ks: set<K>, k: K, v: int, f: K -> int)
    requires forall c :: c in ks ==> f(c) == (if c == k then v else 0)
    ensures SetSum(ks, f) == if k in ks then v else 0
    decreases |ks|
  {
    if ks != {} {
      var c :| c in ks;
      SetSumRemove(ks, c, f);
      SetSumOneKey(ks - {c}, k, v, f);
    }
  }

  /** Grouping does not change a total: summing each group and then the groups
      gives the sum over the rows whose key is one of the groups. */
  lemma {:induction false} Partition<T(!new), K(!new)>(s: seq<T>, ks: set<K>, key: T -> K, val: T -> int,
                                                 part: K -> T -> int, grouped: K -> int, selected: T -> int)
    requires forall k, x :: part(k)(x) == (if key(x) == k then val(x) else 0)
    requires forall k :: k in ks ==> grouped(k) == Sum(s, part(k))
    requires forall x :: selected(x) == (if key(x) in ks then val(x) else 0)
    ensures SetSum(ks, grouped) == Sum(s, selected)
    decreases |s|
  {
    if s == [] {
      SetSumAllZero(ks, grouped);
    } else {
      var init, last := s[..|s| - 1], s[|s| - 1];
      var rest := (k: K) => grouped(k) - part(k)(last);
      var one := (k: K) => if k == key(last) then val(last) else 0;
      Partition(init, ks, key, val, part, rest, selected);
      SetSumAdd(ks, rest, one, grouped);
      SetSumOneKey(ks, key(last), val(last), one);
    }
  }

  lemma {:induction false} SetSumAllZero<K>(ks: set<K>, f: K -> int)
    requires forall k :: k in ks ==> f(k) == 0
    ensures SetSum(ks, f) == 0
    decreases |ks|
  {
    if ks != {} {
      var c :| c in ks;
      SetSumRemove(ks, c, f);
      SetSumAllZero(ks - {c}, f);
    }
  }

  lemma {:induction false} SetSumSplit<K>(ks: set<K>, part: set<K>, f: K -> int)
    requires part <= ks
    ensures SetSum(ks, f) == SetSum(part, f) + SetSum(ks - part, f)
    decreases |part|
  {
    if part == {} {
      assert ks - part == ks;
    } else {
      var c :| c in part;
      SetSumRemove(ks, c, f);
      SetSumRemove(part, c, f);
      SetSumSplit(ks - {c}, part - {c}, f);
      assert ks - {c} - (part - {c}) == ks - part;
    }
  }

  /** Equal sums of pointwise ordered values are equal value by value. */
  lemma {:induction false} SumTight<T>(s: seq<T>, f: T -> int, g: T -> int)
    requires (forall x :: x in s ==> f(x) <= g(x)) && Sum(s, f) == Sum(s, g)
    ensures forall x :: x in s ==> f(x) == g(x)
  {
    if s != [] {
      var init := s[..|s| - 1];
      SumMonotone(init, f, g);
      SumTight(init, f, g);
      assert s == init + [s[|s| - 1]];
    }
  }

  lemma {:induction false} SumAllZero<T>(s: seq<T>, f: T -> int)
    requires forall x :: x in s ==> f(x) == 0
    ensures Sum(s, f) == 0
  {
    if s != [] {
      SumAllZero(s[..|s| - 1], f);
    }
  }

  /** Adding up a table by rows or by columns is the same. */
  lemma {:induction false} SumSwap<S(!new), T(!new)>(s: seq<S>, t: seq<T>, row: S -> T -> int, col: T -> S -> int,
                                               rows: S -> int, cols: T -> int)
    requires forall x, y :: row(x)(y) == col(y)(x)
    requires forall x :: x in s ==> rows(x) == Sum(t, row(x))
    requires forall y :: y in t ==> cols(y) == Sum(s, col(y))
    ensures Sum(s, rows) == Sum(t, cols)
  {
    if s == [] {
      SumAllZero(t, cols);
    } else {
      var init, last := s[..|s| - 1], s[|s| - 1];
      var rest := (y: T) => cols(y) - row(last)(y);
      SumSwap(init, t, row, col, rows, rest);
      SumAdd(t, rest, row(last), cols);
    }
  }

  /** A value counted once for each row that qualifies is counted once when at
      most one row does. */
  lemma {:induction false} SumAtMostOne<T>(s: seq<T>, p: T -> bool, v: int, f: T -> int)
    requires forall i, j :: 0 <= i < j < |s| ==> !(p(s[i]) && p(s[j]))
    requires forall x :: x in s ==> f(x) == if p(x) then v else 0
    ensures Sum(s, f) == if exists i :: 0 <= i < |s| && p(s[i]) then v else 0
  {
    if s != [] {
      var init := s[..|s| - 1];
      assert forall i :: 0 <= i < |init| ==> init[i] == s[i];
      SumAtMostOne(init, p, v, f);
      if i :| 0 <= i < |s| && p(s[i]) {
        assert i < |init| ==> p(init[i]);
      }
    }
  }

  lemma Together<T>(s: seq<T>, t: seq<T>, u: seq<T>)
    ensures s + t + u == s + (t + u)
  {}

  lemma NothingMore<T>(s: seq<T>)
    ensures s + [] == s
  {}

  lemma LastApart<T>(s: seq<T>, t: seq<T>)
    requires t != []
    ensures (s + t)[..|s + t| - 1] == s + t[..|t| - 1] && (s + t)[|s + t| - 1] == t[|t| - 1]
    ensures t[|t| - 1] in t && forall x :: x in t[..|t| - 1] ==> x in t
  {}

  predicate NoRepeats<T(==)>(s: seq<T>) {
    forall i, j :: 0 <= i < j < |s| ==> s[i] != s[j]
  }

  function Members<T(==)>(s: seq<T>): set<T> {
    set x | x in s
  }

  lemma {:induction false} SumOfMembers<T>(s: seq<T>, f: T -> int)
    requires NoRepeats(s)
    ensures Sum(s, f) == SetSum(Members(s), f) && |Members(s)| == |s|
  {
    if s != [] {
      var init, last := s[..|s| - 1], s[|s| - 1];
      assert s == init + [last];
      SumOfMembers(init, f);
      assert Members(s) == Members(init) + {last};
      assert last !in Members(init);
      SetSumRemove(Members(s), last, f);
      assert Members(s) - {last} == Members(init);
    }
  }
}

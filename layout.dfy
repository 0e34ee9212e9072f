/** Page-text reconstruction: the text items of a page are grouped into lines
    by their rounded vertical position, lines are read top to bottom (larger
    `y` first) and the items of a line left to right (smaller `x` first, ties
    in input order, since `Array.prototype.sort` is stable). */
module Layout {
  import opened JsStrings

  /** A text item as the PDF library reports it: its string and the last two
      entries of its transform, the horizontal and vertical position. */
  datatype Item = Item(str: string, x: real, y: real)

  /** A text item after grouping: its string, its horizontal position and its
      vertical position rounded with `Math.round`. */
  datatype Token = Token(str: string, x: real, y: int)

  /** One entry of the list built per page: the 1-based page number and the text. */
  datatype PageText = PageText(page: nat, text: string)

  /** `Math.round`: the nearest integer, halves rounded up (towards +infinity). */
  function Round(v: real): (r: int)
    ensures r as real - 0.5 <= v < r as real + 0.5
  {
    (v + 0.5).Floor
  }

  function ToToken(it: Item): (t: Token)
    ensures t.str == it.str && t.x == it.x && t.y == Round(it.y)
  {
    Token(it.str, it.x, Round(it.y))
  }

  function Tokens(items: seq<Item>): (ts: seq<Token>)
    ensures |ts| == |items|
  {
    seq(|items|, i requires 0 <= i < |items| => ToToken(items[i]))
  }

  // ------------------------------------------------------------ grouping

  /** The items on line `y`, in input order. */
  function OnLine(items: seq<Token>, y: int): (r: seq<Token>)
    ensures |r| <= |items|
  {
    if items == [] then []
    else
      var init := OnLine(items[..|items| - 1], y);
      if items[|items| - 1].y == y then init + [items[|items| - 1]] else init
  }

  /** A line holds only items of the input with its own `y`, and it is empty
      exactly when no item has that `y`. */
  lemma {:induction false} OnLineSpec(items: seq<Token>, y: int)
    ensures forall t :: t in OnLine(items, y) ==> t in items && t.y == y
    ensures OnLine(items, y) == [] <==> forall i :: 0 <= i < |items| ==> items[i].y != y
    decreases |items|
  {
    if items != [] {
      var init := items[..|items| - 1];
      assert items == init + [items[|items| - 1]];
      OnLineSpec(init, y);
    }
  }

  predicate Distinct(ks: seq<int>) {
    forall i, j :: 0 <= i < j < |ks| ==> ks[i] != ks[j]
  }

  /** The line keys, each once, in order of first appearance. */
  function Keys(items: seq<Token>): (ks: seq<int>)
    ensures |ks| <= |items|
  {
    if items == [] then []
    else
      var ks := Keys(items[..|items| - 1]);
      var y := items[|items| - 1].y;
      if y in ks then ks else ks + [y]
  }

  /** The keys are distinct and are exactly the `y` values of the items. */
  lemma {:induction false} KeysSpec(items: seq<Token>)
    ensures Distinct(Keys(items))
    ensures forall y :: y in Keys(items) <==> exists i :: 0 <= i < |items| && items[i].y == y
    decreases |items|
  {
    if items != [] {
      var init := items[..|items| - 1];
      KeysSpec(init);
      forall y ensures y in Keys(items) <==> exists i :: 0 <= i < |items| && items[i].y == y {
        if exists i :: 0 <= i < |init| && init[i].y == y {
          var i :| 0 <= i < |init| && init[i].y == y;
          assert items[i] == init[i];
        }
        if exists i :: 0 <= i < |items| && items[i].y == y {
          var i :| 0 <= i < |items| && items[i].y == y;
          if i < |init| {
            assert init[i] == items[i];
          }
        }
      }
    }
  }

  // ------------------------------------------------ ordering of line keys

  /** Each key is larger than the next one. */
  predicate Descending(ks: seq<int>) {
    forall i :: 0 <= i < |ks| - 1 ==> ks[i] > ks[i + 1]
  }

  lemma DescendingTail(ks: seq<int>)
    requires ks != [] && Descending(ks)
    ensures Descending(ks[1..])
  {
    var tail := ks[1..];
    forall i | 0 <= i < |tail| - 1 ensures tail[i] > tail[i + 1] {
      assert tail[i] == ks[i + 1] && tail[i + 1] == ks[i + 2];
    }
  }

  /** Inserts `k` into a descending list (one step of sorting with `(a, b) => b - a`). */
  function InsertDescending(ks: seq<int>, k: int): (r: seq<int>)
    ensures |r| == |ks| + 1
    ensures r[0] == k || (ks != [] && r[0] == ks[0])
  {
    if ks == [] then [k]
    else if ks[0] > k then [ks[0]] + InsertDescending(ks[1..], k)
    else [k] + ks
  }

  /** Inserting adds exactly `k`, and keeps a list without `k` descending. */
  lemma InsertDescendingSpec(ks: seq<int>, k: int)
    ensures multiset(InsertDescending(ks, k)) == multiset(ks) + multiset{k}
    ensures Descending(ks) && k !in ks ==> Descending(InsertDescending(ks, k))
  {
    InsertDescendingPermutes(ks, k);
    if Descending(ks) && k !in ks {
      InsertDescendingSorted(ks, k);
    }
  }

  lemma {:induction false} InsertDescendingPermutes(ks: seq<int>, k: int)
    ensures multiset(InsertDescending(ks, k)) == multiset(ks) + multiset{k}
    decreases |ks|
  {
    if ks != [] && ks[0] > k {
      var tail := ks[1..];
      assert ks == [ks[0]] + tail;
      InsertDescendingPermutes(tail, k);
      assert InsertDescending(ks, k) == [ks[0]] + InsertDescending(tail, k);
    }
  }

  lemma {:induction false} InsertDescendingSorted(ks: seq<int>, k: int)
    requires Descending(ks) && k !in ks
    ensures Descending(InsertDescending(ks, k))
    decreases |ks|
  {
    if ks == [] {
    } else if ks[0] > k {
      var tail := ks[1..];
      DescendingTail(ks);
      assert k !in tail by {
        forall i | 0 <= i < |tail| ensures tail[i] != k { assert tail[i] == ks[i + 1]; }
      }
      InsertDescendingSorted(tail, k);
      var rest := InsertDescending(tail, k);
      var r := [ks[0]] + rest;
      assert InsertDescending(ks, k) == r;
      assert r[1] == rest[0];
      assert rest[0] == k || (tail != [] && rest[0] == tail[0]);
      assert tail != [] ==> tail[0] == ks[1];
      forall i | 0 <= i < |r| - 1 ensures r[i] > r[i + 1] {
        if i > 0 {
          assert r[i] == rest[i - 1] && r[i + 1] == rest[i];
        }
      }
    } else {
      var r := [k] + ks;
      assert InsertDescending(ks, k) == r;
      assert k != ks[0];
      forall i | 0 <= i < |r| - 1 ensures r[i] > r[i + 1] {
        if i > 0 {
          assert r[i] == ks[i - 1] && r[i + 1] == ks[i];
        }
      }
    }
  }

  lemma DistinctTail(ks: seq<int>)
    requires ks != [] && Distinct(ks)
    ensures Distinct(ks[1..]) && ks[0] !in ks[1..]
  {
    var tail := ks[1..];
    forall i, j | 0 <= i < j < |tail| ensures tail[i] != tail[j] {
      assert tail[i] == ks[i + 1] && tail[j] == ks[j + 1];
    }
    forall i | 0 <= i < |tail| ensures tail[i] != ks[0] {
      assert tail[i] == ks[i + 1];
    }
  }

  /** The keys sorted into descending order, as an insertion sort. */
  function SortDescending(ks: seq<int>): (r: seq<int>)
    ensures |r| == |ks|
  {
    if ks == [] then [] else InsertDescending(SortDescending(ks[1..]), ks[0])
  }

  /** The sort permutes the keys, and orders distinct keys strictly. */
  lemma {:induction false} SortDescendingSpec(ks: seq<int>)
    ensures multiset(SortDescending(ks)) == multiset(ks)
    ensures Distinct(ks) ==> Descending(SortDescending(ks))
    decreases |ks|
  {
    if ks != [] {
      var tail := ks[1..];
      var rest := SortDescending(tail);
      SortDescendingSpec(tail);
      InsertDescendingSpec(rest, ks[0]);
      assert ks == [ks[0]] + tail;
      if Distinct(ks) {
        DistinctTail(ks);
        assert ks[0] !in multiset(tail);
        assert ks[0] !in rest;
      }
    }
  }

  /** A descending list is strictly ordered on every pair, not just neighbours. */
  lemma {:induction false} DescendingPairs(ks: seq<int>)
    requires Descending(ks)
    ensures forall i, j :: 0 <= i < j < |ks| ==> ks[i] > ks[j]
    decreases |ks|
  {
    if |ks| > 1 {
      var tail := ks[1..];
      DescendingTail(ks);
      DescendingPairs(tail);
      forall i, j | 0 <= i < j < |ks| ensures ks[i] > ks[j] {
        if i > 0 {
          assert ks[i] == tail[i - 1] && ks[j] == tail[j - 1];
        } else if j > 1 {
          assert ks[1] == tail[0] && ks[j] == tail[j - 1];
        }
      }
    }
  }

  // ------------------------------------------------ ordering within a line

  /** Each item's `x` is at most the next one's. */
  predicate SortedByX(s: seq<Token>) {
    forall i :: 0 <= i < |s| - 1 ==> s[i].x <= s[i + 1].x
  }

  lemma SortedPrefix(s: seq<Token>, n: nat)
    requires SortedByX(s) && n <= |s|
    ensures SortedByX(s[..n])
  {
    forall i | 0 <= i < n - 1 ensures s[..n][i].x <= s[..n][i + 1].x {
      assert s[..n][i] == s[i] && s[..n][i + 1] == s[i + 1];
    }
  }

  /** The items of `s` at horizontal position `v`, in order: a stable sort
      by `x` must keep each of these subsequences as it is. */
  function AtX(s: seq<Token>, v: real): seq<Token> {
    if s == [] then []
    else AtX(s[..|s| - 1], v) + (if s[|s| - 1].x == v then [s[|s| - 1]] else [])
  }

  lemma AtXSnoc(s: seq<Token>, t: Token, v: real)
    ensures AtX(s + [t], v) == AtX(s, v) + (if t.x == v then [t] else [])
  {
    assert (s + [t])[..|s|] == s;
  }

  /** Inserts `t` after every element whose `x` is not larger: one step of a
      stable insertion sort. */
  function InsertByX(s: seq<Token>, t: Token): (r: seq<Token>)
    ensures |r| == |s| + 1
    ensures r[|r| - 1] == t || (s != [] && r[|r| - 1] == s[|s| - 1])
    decreases |s|
  {
    if s == [] then [t]
    else if s[|s| - 1].x > t.x then InsertByX(s[..|s| - 1], t) + [s[|s| - 1]]
    else s + [t]
  }

  /** Appending a token no further left than the last one keeps a line sorted. */
  lemma SortedSnoc(p: seq<Token>, e: Token)
    requires SortedByX(p) && (p != [] ==> p[|p| - 1].x <= e.x)
    ensures SortedByX(p + [e])
  {
    var r := p + [e];
    forall i | 0 <= i < |r| - 1 ensures r[i].x <= r[i + 1].x {
      if i < |p| - 1 {
        assert r[i] == p[i] && r[i + 1] == p[i + 1];
      } else {
        assert r[i] == p[|p| - 1] && r[i + 1] == e;
      }
    }
  }

  /** Inserting into a sorted line keeps it sorted. */
  lemma {:induction false} InsertByXSorted(s: seq<Token>, t: Token)
    requires SortedByX(s)
    ensures SortedByX(InsertByX(s, t))
    decreases |s|
  {
    if s != [] {
      var last := s[|s| - 1];
      var init := s[..|s| - 1];
      if last.x > t.x {
        SortedPrefix(s, |s| - 1);
        InsertByXSorted(init, t);
        var r' := InsertByX(init, t);
        assert r'[|r'| - 1].x <= last.x by {
          if init != [] {
            assert init[|init| - 1] == s[|s| - 2];
          }
        }
        SortedSnoc(r', last);
        assert InsertByX(s, t) == r' + [last];
      } else {
        SortedSnoc(s, t);
        assert InsertByX(s, t) == s + [t];
      }
    }
  }

  /** Inserting adds exactly one occurrence of `t`. */
  lemma {:induction false} InsertByXPermutes(s: seq<Token>, t: Token)
    ensures multiset(InsertByX(s, t)) == multiset(s) + multiset{t}
    decreases |s|
  {
    if s != [] {
      var init := s[..|s| - 1];
      assert s == init + [s[|s| - 1]];
      if s[|s| - 1].x > t.x {
        InsertByXPermutes(init, t);
      }
    }
  }

  /** Inserting into a sorted line puts `t` after the items at its own `x`. */
  lemma {:induction false} InsertByXStable(s: seq<Token>, t: Token, v: real)
    requires SortedByX(s)
    ensures AtX(InsertByX(s, t), v) == AtX(s, v) + (if t.x == v then [t] else [])
    decreases |s|
  {
    if s == [] {
      AtXSnoc([], t, v);
    } else {
      var last := s[|s| - 1];
      var init := s[..|s| - 1];
      assert s == init + [last];
      AtXSnoc(init, last, v);
      if last.x > t.x {
        SortedPrefix(s, |s| - 1);
        InsertByXStable(init, t, v);
        AtXSnoc(InsertByX(init, t), last, v);
      } else {
        AtXSnoc(s, t, v);
      }
    }
  }

  /** Stable sort by `x` (`.sort((a, b) => a.x - b.x)`), as an insertion sort. */
  function SortByX(s: seq<Token>): (r: seq<Token>)
    ensures |r| == |s|
  {
    if s == [] then [] else InsertByX(SortByX(s[..|s| - 1]), s[|s| - 1])
  }

  /** The sort orders the line by `x` and is a permutation of it. */
  lemma {:induction false} SortByXSpec(s: seq<Token>)
    ensures SortedByX(SortByX(s))
    ensures multiset(SortByX(s)) == multiset(s)
    decreases |s|
  {
    if s != [] {
      var init := s[..|s| - 1];
      assert s == init + [s[|s| - 1]];
      SortByXSpec(init);
      InsertByXSorted(SortByX(init), s[|s| - 1]);
      InsertByXPermutes(SortByX(init), s[|s| - 1]);
    }
  }

  /** The sort is stable: the items at any one `x` keep their input order. */
  lemma {:induction false} SortByXStable(s: seq<Token>, v: real)
    ensures AtX(SortByX(s), v) == AtX(s, v)
    decreases |s|
  {
    if s != [] {
      var init := s[..|s| - 1];
      assert s == init + [s[|s| - 1]];
      SortByXSpec(init);
      SortByXStable(init, v);
      InsertByXStable(SortByX(init), s[|s| - 1], v);
      AtXSnoc(init, s[|s| - 1], v);
    }
  }

  /** A line sorted on neighbours is sorted on every pair. */
  lemma {:induction false} SortedPairs(s: seq<Token>)
    requires SortedByX(s)
    ensures forall i, j :: 0 <= i < j < |s| ==> s[i].x <= s[j].x
    decreases |s|
  {
    if |s| > 1 {
      var tail := s[1..];
      assert SortedByX(tail) by {
        forall i | 0 <= i < |tail| - 1 ensures tail[i].x <= tail[i + 1].x {
          assert tail[i] == s[i + 1] && tail[i + 1] == s[i + 2];
        }
      }
      SortedPairs(tail);
      forall i, j | 0 <= i < j < |s| ensures s[i].x <= s[j].x {
        if i > 0 {
          assert s[i] == tail[i - 1] && s[j] == tail[j - 1];
        } else if j > 1 {
          assert s[1] == tail[0] && s[j] == tail[j - 1];
        }
      }
    }
  }

  /** Inserting before the first of a run of larger items at the end. */
  lemma {:induction false} InsertByXAt(s: seq<Token>, t: Token, j: nat)
    requires j <= |s|
    requires forall k :: j <= k < |s| ==> s[k].x > t.x
    requires j == 0 || s[j - 1].x <= t.x
    ensures InsertByX(s, t) == s[..j] + [t] + s[j..]
    decreases |s|
  {
    if s != [] && j < |s| {
      var init := s[..|s| - 1];
      InsertByXAt(init, t, j);
      assert init[..j] == s[..j];
      assert init[j..] + [s[|s| - 1]] == s[j..];
    }
  }

  /** Moves `a[i]` left past the larger items before it: one pass of the
      insertion sort. */
  method InsertInPlace(a: array<Token>, i: nat)
    requires i < a.Length
    modifies a
    ensures a[..] == InsertByX(old(a[..])[..i], old(a[..])[i]) + old(a[..])[i + 1..]
  {
    ghost var s0 := a[..];
    var t := a[i];
    var j := i;
    while j > 0 && a[j - 1].x > t.x
      invariant 0 <= j <= i
      invariant forall k :: 0 <= k < j ==> a[k] == s0[k]
      invariant forall k :: j < k <= i ==> a[k] == s0[k - 1]
      invariant forall k :: i < k < a.Length ==> a[k] == s0[k]
      invariant forall k :: j <= k < i ==> s0[k].x > t.x
    {
      a[j] := a[j - 1];
      j := j - 1;
    }
    a[j] := t;
    Placed(a[..], s0, i, j);
  }

  /** The array after the pass is the insertion of `s0[i]` into the sorted
      prefix, followed by the untouched rest. */
  lemma Placed(cur: seq<Token>, s0: seq<Token>, i: nat, j: nat)
    requires j <= i < |s0| && |cur| == |s0|
    requires forall k :: 0 <= k < j ==> cur[k] == s0[k]
    requires cur[j] == s0[i]
    requires forall k :: j < k <= i ==> cur[k] == s0[k - 1]
    requires forall k :: i < k < |cur| ==> cur[k] == s0[k]
    requires forall k :: j <= k < i ==> s0[k].x > s0[i].x
    requires j == 0 || s0[j - 1].x <= s0[i].x
    ensures cur == InsertByX(s0[..i], s0[i]) + s0[i + 1..]
  {
    var sorted := s0[..i];
    InsertByXAt(sorted, s0[i], j);
    Shifted(cur, sorted, s0[i], j, s0[i + 1..]);
  }

  /** The array after the pass, element by element: the sorted prefix with
      `t` put in at `j`, then the untouched rest. */
  lemma Shifted(cur: seq<Token>, sorted: seq<Token>, t: Token, j: nat, rest: seq<Token>)
    requires j <= |sorted| && |cur| == |sorted| + 1 + |rest|
    requires forall k :: 0 <= k < j ==> cur[k] == sorted[k]
    requires cur[j] == t
    requires forall k :: j < k <= |sorted| ==> cur[k] == sorted[k - 1]
    requires forall k :: |sorted| < k < |cur| ==> cur[k] == rest[k - |sorted| - 1]
    ensures cur == sorted[..j] + [t] + sorted[j..] + rest
  {
    var r := sorted[..j] + [t] + sorted[j..] + rest;
    forall k | 0 <= k < |cur| ensures cur[k] == r[k] {
      if k < j {
        assert r[k] == sorted[k];
      } else if k == j {
        assert r[k] == t;
      } else if k <= |sorted| {
        assert r[k] == sorted[k - 1];
      } else {
        assert r[k] == rest[k - |sorted| - 1];
      }
    }
  }

  lemma SliceAt(x: seq<Token>, y: seq<Token>)
    requires y != []
    ensures (x + y)[..|x|] == x && (x + y)[|x|] == y[0] && (x + y)[|x| + 1..] == y[1..]
  {
  }

  lemma SortByXStep(s: seq<Token>, i: nat)
    requires i < |s|
    ensures SortByX(s[..i + 1]) == InsertByX(SortByX(s[..i]), s[i])
  {
    assert s[..i + 1][..i] == s[..i];
  }

  /** One pass of the insertion sort extends the sorted prefix by one item. */
  lemma SortStep(pre: seq<Token>, post: seq<Token>, s: seq<Token>, i: nat)
    requires i < |s| && pre == SortByX(s[..i]) + s[i..]
    requires post == InsertByX(pre[..i], pre[i]) + pre[i + 1..]
    ensures post == SortByX(s[..i + 1]) + s[i + 1..]
  {
    SliceAt(SortByX(s[..i]), s[i..]);
    SortByXStep(s, i);
  }

  /** Sorts the items of one line in place by `x`, keeping ties in order. */
  method SortLineByX(a: array<Token>)
    modifies a
    ensures a[..] == SortByX(old(a[..]))
  {
    ghost var s := a[..];
    var i := 0;
    while i < a.Length
      invariant 0 <= i <= a.Length
      invariant a[..] == SortByX(s[..i]) + s[i..]
    {
      ghost var pre := a[..];
      InsertInPlace(a, i);
      SortStep(pre, a[..], s, i);
      i := i + 1;
    }
    assert s[..a.Length] == s;
  }

  // ------------------------------------------------------- the page text

  /** The line keys from top to bottom. */
  function LineKeys(items: seq<Token>): seq<int> {
    SortDescending(Keys(items))
  }

  /** The lines of the page, top to bottom, each sorted left to right. */
  function Lines(items: seq<Token>): (ls: seq<seq<Token>>)
    ensures |ls| == |Keys(items)|
  {
    var ys := LineKeys(items);
    seq(|ys|, k requires 0 <= k < |ys| => SortByX(OnLine(items, ys[k])))
  }

  /** Every line key is the `y` of some item. */
  lemma LineKeyOccurs(items: seq<Token>, k: nat)
    requires k < |LineKeys(items)|
    ensures exists i :: 0 <= i < |items| && items[i].y == LineKeys(items)[k]
  {
    var ks := Keys(items);
    KeysSpec(items);
    SortDescendingSpec(ks);
    assert LineKeys(items)[k] in multiset(LineKeys(items));
    assert LineKeys(items)[k] in ks;
  }

  /** One line per distinct rounded `y`, in strictly descending `y`, and
      every item's `y` is one of them. */
  lemma LinesShape(items: seq<Token>)
    ensures |LineKeys(items)| == |Lines(items)| == |Keys(items)|
    ensures forall i, j :: 0 <= i < j < |LineKeys(items)| ==> LineKeys(items)[i] > LineKeys(items)[j]
    ensures forall i :: 0 <= i < |items| ==> items[i].y in LineKeys(items)
  {
    var ks := Keys(items);
    var ys := LineKeys(items);
    KeysSpec(items);
    SortDescendingSpec(ks);
    DescendingPairs(ys);
    forall i | 0 <= i < |items| ensures items[i].y in ys {
      assert items[i].y in ks;
      assert items[i].y in multiset(ks);
    }
  }

  /** Each line holds exactly the items of its `y` (at least one), in
      non-decreasing `x`, with the items at one `x` in input order. */
  lemma LineShape(items: seq<Token>, k: nat)
    requires k < |Lines(items)|
    ensures Lines(items)[k] != []
    ensures forall t :: t in Lines(items)[k] ==> t in items && t.y == LineKeys(items)[k]
    ensures SortedByX(Lines(items)[k])
    ensures multiset(Lines(items)[k]) == multiset(OnLine(items, LineKeys(items)[k]))
    ensures forall v :: AtX(Lines(items)[k], v) == AtX(OnLine(items, LineKeys(items)[k]), v)
  {
    var y := LineKeys(items)[k];
    var line := OnLine(items, y);
    assert Lines(items)[k] == SortByX(line);
    LineKeyOccurs(items, k);
    OnLineSpec(items, y);
    SortByXSpec(line);
    forall t | t in SortByX(line) ensures t in items && t.y == y {
      assert t in multiset(line);
    }
    forall v ensures AtX(SortByX(line), v) == AtX(line, v) {
      SortByXStable(line, v);
    }
  }

  function Words(line: seq<Token>): (ws: seq<string>)
    ensures |ws| == |line|
  {
    seq(|line|, k requires 0 <= k < |line| => line[k].str)
  }

  /** The words of a line joined by one space. */
  function LineText(line: seq<Token>): string {
    Join(Words(line), " ")
  }

  function LineTexts(items: seq<Token>): (ts: seq<string>)
    ensures |ts| == |Keys(items)|
  {
    var ls := Lines(items);
    seq(|ls|, k requires 0 <= k < |ls| => LineText(ls[k]))
  }

  /** The text of a page: its lines joined by newlines. */
  function PageTextOf(items: seq<Token>): string {
    Join(LineTexts(items), "\n")
  }

  lemma {:induction false} JoinWithout(parts: seq<string>, sep: string, c: char)
    requires c !in sep
    requires forall k :: 0 <= k < |parts| ==> c !in parts[k]
    ensures c !in Join(parts, sep)
    decreases |parts|
  {
    if |parts| > 1 {
      JoinWithout(parts[1..], sep, c);
    }
  }

  /** When no item holds a newline, the page text splits back into exactly one
      line per distinct rounded `y`: it has one newline fewer than that, and an
      empty page gives the empty text. */
  lemma PageTextLines(items: seq<Token>)
    requires forall i :: 0 <= i < |items| ==> '\n' !in items[i].str
    ensures items == [] ==> PageTextOf(items) == ""
    ensures items != [] ==> Split(PageTextOf(items), '\n') == LineTexts(items)
    ensures items != [] ==> Count(PageTextOf(items), '\n') + 1 == |Keys(items)|
  {
    var ts := LineTexts(items);
    var ls := Lines(items);
    if items != [] {
      LinesShape(items);
      assert items[0].y in LineKeys(items);
      forall k | 0 <= k < |ts| ensures '\n' !in ts[k] {
        LineShape(items, k);
        var ws := Words(ls[k]);
        forall w | 0 <= w < |ws| ensures '\n' !in ws[w] {
          assert ls[k][w] in ls[k];
        }
        JoinWithout(ws, " ", '\n');
      }
      SplitJoin(ts, '\n');
      SplitCount(PageTextOf(items), '\n');
    }
  }

  lemma KeysStep(ts: seq<Token>, i: nat)
    requires i < |ts|
    ensures Keys(ts[..i + 1]) == if ts[i].y in Keys(ts[..i]) then Keys(ts[..i]) else Keys(ts[..i]) + [ts[i].y]
  {
    assert ts[..i + 1][..i] == ts[..i];
  }

  lemma OnLineStep(ts: seq<Token>, i: nat, y: int)
    requires i < |ts|
    ensures OnLine(ts[..i + 1], y) == OnLine(ts[..i], y) + (if ts[i].y == y then [ts[i]] else [])
  {
    assert ts[..i + 1][..i] == ts[..i];
  }

  /** A `y` that is not yet a key has no items. */
  lemma {:induction false} UnseenKeyEmpty(ts: seq<Token>, y: int)
    requires y !in Keys(ts)
    ensures OnLine(ts, y) == []
    decreases |ts|
  {
    if ts != [] {
      UnseenKeyEmpty(ts[..|ts| - 1], y);
    }
  }

  /** Groups the items by rounded `y` into a dictionary of lines, recording the
      keys in order of first appearance. */
  method GroupByLine(items: seq<Item>) returns (lines: map<int, seq<Token>>, order: seq<int>)
    ensures order == Keys(Tokens(items))
    ensures forall y :: y in lines <==> y in order
    ensures forall y :: y in lines ==> lines[y] == OnLine(Tokens(items), y)
  {
    ghost var ts := Tokens(items);
    lines := map[];
    order := [];
    var i := 0;
    while i < |items|
      invariant 0 <= i <= |items|
      invariant order == Keys(ts[..i])
      invariant forall y :: y in lines <==> y in order
      invariant forall y :: y in lines ==> lines[y] == OnLine(ts[..i], y)
    {
      var t := Token(items[i].str, items[i].x, Round(items[i].y));
      assert t == ts[i];
      KeysStep(ts, i);
      forall y ensures OnLine(ts[..i + 1], y) == OnLine(ts[..i], y) + (if t.y == y then [t] else []) {
        OnLineStep(ts, i, y);
      }
      if t.y !in lines {
        UnseenKeyEmpty(ts[..i], t.y);
        lines := lines[t.y := []];
        order := order + [t.y];
      }
      lines := lines[t.y := lines[t.y] + [t]];
      i := i + 1;
    }
    assert ts[..i] == ts;
  }

  /** The `k`th line text is the text of the `k`th key's items sorted by `x`. */
  lemma LineTextAt(items: seq<Token>, k: nat)
    requires k < |LineKeys(items)|
    ensures k < |LineTexts(items)|
    ensures LineTexts(items)[k] == LineText(SortByX(OnLine(items, LineKeys(items)[k])))
  {
  }

  /** The `k`-th line key, top to bottom, is a key of the grouped lines,
      and the tokens grouped under it give the `k`-th line's text. */
  lemma LineOfKey(lines: map<int, seq<Token>>, order: seq<int>, tokens: seq<Token>, k: nat)
    requires order == Keys(tokens)
    requires forall y :: y in lines <==> y in order
    requires forall y :: y in lines ==> lines[y] == OnLine(tokens, y)
    requires k < |LineKeys(tokens)|
    ensures LineKeys(tokens)[k] in lines
    ensures k < |LineTexts(tokens)|
    ensures LineTexts(tokens)[k] == LineText(SortByX(lines[LineKeys(tokens)[k]]))
  {
    SortDescendingSpec(order);
    assert LineKeys(tokens)[k] in multiset(order);
    LineTextAt(tokens, k);
  }

  /** The text of one line: its items sorted in place by `x`, their strings
      joined by spaces. */
  method SortedLineText(line: seq<Token>) returns (lineText: string)
    ensures lineText == LineText(SortByX(line))
  {
    var a := new Token[|line|](j requires 0 <= j < |line| => line[j]);
    assert a[..] == line;
    SortLineByX(a);
    lineText := LineText(a[..]);
  }

  /** Rebuilds the text of one page: groups the items, orders the keys from
      top to bottom, sorts each line in place and joins. */
  method ReconstructPage(items: seq<Item>) returns (text: string)
    ensures text == PageTextOf(Tokens(items))
  {
    var lines, order := GroupByLine(items);
    ghost var tokens := Tokens(items);
    var ys := SortDescending(order);
    assert ys == LineKeys(tokens);
    ghost var ts := LineTexts(tokens);
    var texts: seq<string> := [];
    var k := 0;
    while k < |ys|
      invariant 0 <= k <= |ys| == |ts|
      invariant texts == ts[..k]
    {
      LineOfKey(lines, order, tokens, k);
      var lineText := SortedLineText(lines[ys[k]]);
      TakeSnoc(ts, k);
      texts := texts + [lineText];
      k := k + 1;
    }
    assert texts == ts;
    text := Join(texts, "\n");
  }

  /** The text layer of a whole document: one entry per page, numbered from 1. */
  function PagesOf(pages: seq<seq<Item>>): (ps: seq<PageText>)
    ensures |ps| == |pages|
  {
    seq(|pages|, i requires 0 <= i < |pages| => PageText(i + 1, PageTextOf(Tokens(pages[i]))))
  }

  /** Builds the page list one page at a time. */
  method ExtractPages(pages: seq<seq<Item>>) returns (out: seq<PageText>)
    ensures out == PagesOf(pages)
  {
    out := [];
    var i := 1;
    while i <= |pages|
      invariant 1 <= i <= |pages| + 1
      invariant out == PagesOf(pages[..i - 1])
    {
      var text := ReconstructPage(pages[i - 1]);
      assert pages[..i][..i - 1] == pages[..i - 1];
      out := out + [PageText(i, text)];
      i := i + 1;
    }
    assert pages[..i - 1] == pages;
  }
}

/** Timestamps implement recency: each set holds exactly the most recently used blocks of its index. */
module CacheLru {
  import opened Wrappers
  import opened CacheAddress
  import opened CacheState

  // ---------------------------------------------------------------- recency, from the trace alone

  /** Where a tag is in a list, or its length. */
  function Find(s: seq<u64>, x: u64): (k: nat)
    ensures k <= |s| && (k < |s| ==> s[k] == x) && forall j :: 0 <= j < k ==> s[j] != x
  {
    if s == [] || s[0] == x then 0 else 1 + Find(s[1..], x)
  }

  /** `x` moved to the front of a list. */
  function ToFront(r: seq<u64>, x: u64): seq<u64> {
    var k := Find(r, x);
    [x] + if k < |r| then r[..k] + r[k + 1..] else r
  }

  /** The tags used in a set, most recently used first. */
  function Recency(trace: seq<Access>, g: Geometry, index: nat): seq<u64>
    requires g.Legal()
  {
    if trace == [] then []
    else
      var before, l := Recency(trace[..|trace| - 1], g, index), LineOf(trace[|trace| - 1], g);
      if l.index == index then ToFront(before, l.tag) else before
  }

  /** The time of the last use of a block: the number of accesses up to and including it, or 0. */
  function LastUse(trace: seq<Access>, g: Geometry, l: Line): (t: nat)
    requires g.Legal()
    ensures t <= |trace|
  {
    if trace == [] then 0
    else if LineOf(trace[|trace| - 1], g) == l then |trace|
    else LastUse(trace[..|trace| - 1], g, l)
  }

  /** The distinct other blocks of the set used since the last use of a block (since the start, if none). */
  function UsedSince(trace: seq<Access>, g: Geometry, l: Line): set<u64>
    requires g.Legal()
  {
    if trace == [] then {}
    else
      var m := LineOf(trace[|trace| - 1], g);
      if m == l then {}
      else UsedSince(trace[..|trace| - 1], g, l) + if m.index == l.index then {m.tag} else {}
  }

  /** The recency list is ordered by last use, so it has no repetition. */
  ghost predicate Ordered(trace: seq<Access>, g: Geometry, index: nat)
    requires g.Legal()
  {
    var r := Recency(trace, g, index);
    && Distinct(r)
    && (forall i, j :: 0 <= i < j < |r| ==> LastUse(trace, g, Line(index, r[i])) > LastUse(trace, g, Line(index, r[j])))
  }

  /** The recency list has the used blocks only. */
  lemma {:induction false} RecencyComplete(trace: seq<Access>, g: Geometry, index: nat, x: u64)
    requires g.Legal()
    ensures x in Recency(trace, g, index) <==> LastUse(trace, g, Line(index, x)) > 0
  {
    if trace != [] {
      var before, l := trace[..|trace| - 1], LineOf(trace[|trace| - 1], g);
      RecencyComplete(before, g, index, x);
      ToFrontMembers(Recency(before, g, index), l.tag, x);
    }
  }

  lemma ToFrontAt(r: seq<u64>, x: u64)
    requires Distinct(r)
    ensures var t, k := ToFront(r, x), Find(r, x);
            && |t| == (if k < |r| then |r| else |r| + 1) && t[0] == x
            && (forall i :: 0 < i < |t| ==> 0 <= From(i, k) < |r| && t[i] == r[From(i, k)] && t[i] != x)
  {
  }

  lemma ToFrontMembers(r: seq<u64>, x: u64, y: u64)
    ensures y in ToFront(r, x) <==> y == x || y in r
  {
    var t, k := ToFront(r, x), Find(r, x);
    if y in r {
      var j := Find(r, y);
      assert j < |r|;
      assert j == k || t[if j < k then j + 1 else if k < |r| then j else j + 1] == y;
    }
  }

  /** Where the `i`-th element of a list came from when the `k`-th was moved to the front. */
  function From(i: int, k: nat): int {
    if i <= k then i - 1 else i
  }

  lemma {:induction false} RecencyOrdered(trace: seq<Access>, g: Geometry, index: nat)
    requires g.Legal()
    ensures Ordered(trace, g, index)
  {
    if trace != [] {
      var before, l := trace[..|trace| - 1], LineOf(trace[|trace| - 1], g);
      RecencyOrdered(before, g, index);
      if l.index == index {
        UseKeepsOrder(trace, g, index, l.tag);
      }
    }
  }

  /** One more access: it is the last use of its own block and of no other. */
  lemma LastUseAfter(trace: seq<Access>, g: Geometry, l: Line)
    requires g.Legal() && trace != []
    ensures LastUse(trace, g, l) ==
      if LineOf(trace[|trace| - 1], g) == l then |trace| else LastUse(trace[..|trace| - 1], g, l)
  {
  }

  lemma UseKeepsOrder(trace: seq<Access>, g: Geometry, index: nat, x: u64)
    requires g.Legal() && trace != [] && Ordered(trace[..|trace| - 1], g, index)
    requires LineOf(trace[|trace| - 1], g) == Line(index, x)
    ensures Ordered(trace, g, index)
  {
    var before := trace[..|trace| - 1];
    var r, t := Recency(before, g, index), Recency(trace, g, index);
    assert t == ToFront(r, x);
    hide Recency, ToFront, LastUse, LineOf, Find;
    ToFrontAt(r, x);
    var k := Find(r, x);
    forall i, j | 0 <= i < j < |t|
      ensures t[i] != t[j] && LastUse(trace, g, Line(index, t[i])) > LastUse(trace, g, Line(index, t[j]))
    {
      LastUseAfter(trace, g, Line(index, t[i]));
      LastUseAfter(trace, g, Line(index, t[j]));
      if i > 0 {
        assert From(i, k) < From(j, k);
      }
    }
  }

  // ---------------------------------------------------------------- the most recent blocks

  function Min(a: nat, b: nat): nat {
    if a <= b then a else b
  }

  /** The `w` most recently used tags of a set, or all of them. */
  function Top(r: seq<u64>, w: nat): seq<u64> {
    r[..Min(w, |r|)]
  }

  /** A use of a tag among the top ones keeps the top ones. */
  lemma TopAfterHit(r: seq<u64>, w: nat, x: u64, y: u64)
    requires x in Top(r, w)
    ensures |ToFront(r, x)| == |r|
    ensures y in Top(ToFront(r, x), w) <==> y in Top(r, w)
  {
    var t, k, n := ToFront(r, x), Find(r, x), Min(w, |r|);
    assert k < n && r[k] == x;
    assert r[k + 1..] == r[k + 1..n] + r[n..];
    assert t == ([x] + r[..k] + r[k + 1..n]) + r[n..];
    assert t[..n] == [x] + r[..k] + r[k + 1..n];
    assert r[..n] == r[..k] + [x] + r[k + 1..n];
  }

  /** A use of another tag puts it on top and, when the top is full, drops its last tag. */
  lemma TopAfterMiss(r: seq<u64>, w: nat, x: u64, y: u64)
    requires x !in Top(r, w) && w > 0
    ensures |ToFront(r, x)| >= |r| && Min(w, |ToFront(r, x)|) == Min(w, |r| + 1)
    ensures y in Top(ToFront(r, x), w) <==> y == x || y in r[..Min(w - 1, |r|)]
  {
    var t, k, n := ToFront(r, x), Find(r, x), Min(w - 1, |r|);
    if k < |r| {
      assert k >= Min(w, |r|);
    }
    assert Top(t, w) == [x] + r[..n];
  }

  // ---------------------------------------------------------------- what a set holds

  function CountValid(s: Set): (n: nat)
    ensures n <= |s|
  {
    if s == [] then 0 else (if s[0].valid then 1 else 0) + CountValid(s[1..])
  }

  lemma {:induction false} CountAfter(s: Set, k: nat, b: Block)
    requires k < |s| && b.valid
    ensures CountValid(s[k := b]) == CountValid(s) + if s[k].valid then 0 else 1
  {
    if k > 0 {
      CountAfter(s[1..], k - 1, b);
      assert s[k := b][1..] == s[1..][k - 1 := b];
    }
  }

  lemma {:induction false} CountFull(s: Set)
    ensures CountValid(s) == |s| <==> FindInvalid(s, 0) == |s|
  {
    if s != [] {
      CountFull(s[1..]);
      var k := FindInvalid(s[1..], 0);
      if k < |s[1..]| {
        assert !s[k + 1].valid;
      }
      assert forall j :: 0 <= j < |s[1..]| ==> s[1..][j] == s[j + 1];
    }
  }

  predicate Holds(s: Set, tag: u64) {
    exists j :: 0 <= j < |s| && s[j].valid && s[j].tag == tag
  }

  /** The set holds exactly the most recently used tags of its index, each once, stamped with its last use. */
  ghost predicate Recent(s: Set, trace: seq<Access>, g: Geometry, index: nat)
    requires g.Legal()
  {
    var top := Top(Recency(trace, g, index), |s|);
    && CountValid(s) == |top|
    && (forall j :: 0 <= j < |s| && s[j].valid ==>
          s[j].tag in top && s[j].lru == LastUse(trace, g, Line(index, s[j].tag)))
    && OncePerSet(s)
    && (forall k :: 0 <= k < |top| ==> Holds(s, top[k]))
  }

  /** In a full set the least recently used block is the last of the top tags. */
  lemma LruIsLast(s: Set, trace: seq<Access>, g: Geometry, index: nat)
    requires g.Legal() && s != [] && Recent(s, trace, g, index) && FindInvalid(s, 0) == |s|
    ensures var r := Recency(trace, g, index);
            |r| >= |s| && s[FindLru(s, 0, 0)].tag == r[|s| - 1]
  {
    RecencyOrdered(trace, g, index);
    CountFull(s);
    var r, k := Recency(trace, g, index), FindLru(s, 0, 0);
    var top := Top(r, |s|);
    assert Holds(s, top[|s| - 1]);
    var j :| 0 <= j < |s| && s[j].valid && s[j].tag == top[|s| - 1];
    assert s[k].tag in top;
    var i :| 0 <= i < |top| && top[i] == s[k].tag;
    if i < |s| - 1 {
      assert false;
    }
  }

  /** The tags a set holds are the top ones. */
  lemma HoldsIsTop(s: Set, trace: seq<Access>, g: Geometry, index: nat, x: u64)
    requires g.Legal() && Recent(s, trace, g, index)
    ensures Holds(s, x) <==> x in Top(Recency(trace, g, index), |s|)
  {
    var top := Top(Recency(trace, g, index), |s|);
    if x in top {
      var k :| 0 <= k < |top| && top[k] == x;
      assert Holds(s, top[k]);
    }
  }

  /** What the tags of a set are once slot `k` holds tag `x`. */
  lemma HoldsAfter(s: Set, k: nat, b: Block, y: u64)
    requires k < |s| && b.valid
    requires OncePerSet(s)
    ensures Holds(s[k := b], y) <==> y == b.tag || (Holds(s, y) && !(s[k].valid && s[k].tag == y))
  {
    var t := s[k := b];
    if Holds(t, y) {
      var j :| 0 <= j < |t| && t[j].valid && t[j].tag == y;
      assert j != k ==> s[j].valid && s[j].tag == y;
    }
    if y == b.tag {
      assert t[k].valid && t[k].tag == y;
    } else if Holds(s, y) && !(s[k].valid && s[k].tag == y) {
      var j :| 0 <= j < |s| && s[j].valid && s[j].tag == y;
      assert t[j].valid && t[j].tag == y;
    }
  }

  lemma RecencyUnfolds(trace: seq<Access>, g: Geometry, index: nat, x: u64)
    requires g.Legal() && trace != [] && LineOf(trace[|trace| - 1], g) == Line(index, x)
    ensures Recency(trace, g, index) == ToFront(Recency(trace[..|trace| - 1], g, index), x)
  {
  }

  lemma HitSlotHolds(s: Set, x: u64)
    ensures Holds(s, x) <==> FindTag(s, x, 0) < |s|
  {
  }

  /** The tags a set holds after an access are again the top ones. */
  lemma UseKeepsTop(s: Set, trace: seq<Access>, g: Geometry, index: nat, x: u64, b: Block, y: u64)
    requires g.Legal() && s != [] && trace != [] && LineOf(trace[|trace| - 1], g) == Line(index, x)
    requires Recent(s, trace[..|trace| - 1], g, index)
    requires b.valid && b.tag == x
    ensures var t := s[Chosen(s, x) := b];
            && (Holds(t, y) <==> y in Top(Recency(trace, g, index), |s|))
            && CountValid(t) == |Top(Recency(trace, g, index), |s|)|
  {
    hide Recency, CountValid, Holds, LineOf, FindTag, FindInvalid, FindLru, ToFront;
    var before, k := trace[..|trace| - 1], Chosen(s, x);
    var r := Recency(before, g, index);
    RecencyUnfolds(trace, g, index, x);
    HitSlotHolds(s, x);
    HoldsAfter(s, k, b, y);
    HoldsIsTop(s, before, g, index, x);
    HoldsIsTop(s, before, g, index, y);
    CountAfter(s, k, b);
    CountFull(s);
    if Holds(s, x) {
      TopAfterHit(r, |s|, x, y);
    } else {
      TopAfterMiss(r, |s|, x, y);
      if FindInvalid(s, 0) == |s| {
        LruIsLast(s, before, g, index);
        DistinctTop(before, g, index, |s|, y);
      }
    }
  }

  /** Dropping the last of the top tags drops that tag only. */
  lemma DistinctTop(trace: seq<Access>, g: Geometry, index: nat, w: nat, y: u64)
    requires g.Legal() && 0 < w <= |Recency(trace, g, index)|
    ensures var r := Recency(trace, g, index); y in r[..w - 1] <==> y in r[..w] && y != r[w - 1]
  {
    RecencyOrdered(trace, g, index);
    var r := Recency(trace, g, index);
    assert r[..w] == r[..w - 1] + [r[w - 1]];
    if y in r[..w - 1] {
      var i :| 0 <= i < w - 1 && r[i] == y;
    }
  }

  /** An access keeps its set holding exactly the most recently used tags. */
  lemma UseKeepsRecent(s: Set, trace: seq<Access>, g: Geometry, index: nat, x: u64, b: Block)
    requires g.Legal() && s != [] && trace != [] && LineOf(trace[|trace| - 1], g) == Line(index, x)
    requires Recent(s, trace[..|trace| - 1], g, index)
    requires b.valid && b.tag == x && b.lru == |trace|
    ensures Recent(s[Chosen(s, x) := b], trace, g, index)
  {
    hide Recency, LineOf, ToFront, CountValid, Top;
    var before, k := trace[..|trace| - 1], Chosen(s, x);
    var t := s[k := b];
    var top := Top(Recency(trace, g, index), |s|);
    UseKeepsTop(s, trace, g, index, x, b, x);
    forall i | 0 <= i < |top| ensures Holds(t, top[i]) {
      UseKeepsTop(s, trace, g, index, x, b, top[i]);
    }
    forall j | 0 <= j < |t| && t[j].valid
      ensures t[j].tag in top && t[j].lru == LastUse(trace, g, Line(index, t[j].tag))
    {
      UseKeepsTop(s, trace, g, index, x, b, t[j].tag);
      LastUseAfter(trace, g, Line(index, t[j].tag));
    }
  }

  /** An access leaves the other sets as they are, and their recency too. */
  lemma OtherSetRecent(s: Set, trace: seq<Access>, g: Geometry, index: nat)
    requires g.Legal() && trace != [] && LineOf(trace[|trace| - 1], g).index != index
    requires Recent(s, trace[..|trace| - 1], g, index)
    ensures Recent(s, trace, g, index)
  {
    forall j | 0 <= j < |s| && s[j].valid
      ensures s[j].lru == LastUse(trace, g, Line(index, s[j].tag))
    {
      LastUseAfter(trace, g, Line(index, s[j].tag));
    }
  }

  // ---------------------------------------------------------------- whole traces

  /** Every set holds exactly the most recently used tags of its index. */
  ghost predicate AllRecent(c: Cache, trace: seq<Access>) {
    && Sized(c) && c.counter == |trace|
    && forall i :: 0 <= i < |c.sets| ==> Recent(c.sets[i], trace, c.geo, i)
  }

  /** An access overwrites one block of one set. */
  lemma StepWrites(c: Cache, a: Access)
    requires Sized(c)
    ensures var l, d, k := LineOf(a, c.geo), Step(c, a), Slot(c, a);
            && l.index < |c.sets| && c.sets[l.index] != [] && k == Chosen(c.sets[l.index], l.tag)
            && d.counter == Tick(c.counter)
            && d.sets == c.sets[l.index := c.sets[l.index][k := d.sets[l.index][k]]]
            && (var b := d.sets[l.index][k];
                b == Block(true, l.tag, Tick(c.counter), a.kind.Write? || (Hit(c, a) && c.sets[l.index][k].dirty)))
  {
    AddressSplit(a.addr, c.geo);
  }

  lemma StepKeepsRecentAt(c: Cache, trace: seq<Access>, i: nat)
    requires Sized(c) && trace != [] && Tick(c.counter) == |trace| && i < |c.sets|
    requires Recent(c.sets[i], trace[..|trace| - 1], c.geo, i)
    ensures Recent(Step(c, trace[|trace| - 1]).sets[i], trace, c.geo, i)
  {
    hide Recent, Recency, Chosen, Step, Slot, Tick, NumSets, Ways;
    var a := trace[|trace| - 1];
    var l, d := LineOf(a, c.geo), Step(c, a);
    StepWrites(c, a);
    if i == l.index {
      UseKeepsRecent(c.sets[i], trace, c.geo, i, l.tag, d.sets[i][Slot(c, a)]);
    } else {
      OtherSetRecent(c.sets[i], trace, c.geo, i);
    }
  }

  lemma StepKeepsRecent(c: Cache, trace: seq<Access>)
    requires trace != [] && |trace| < WORD && AllRecent(c, trace[..|trace| - 1])
    ensures AllRecent(Step(c, trace[|trace| - 1]), trace)
  {
    hide Recent, Step, NumSets, Ways;
    StepWrites(c, trace[|trace| - 1]);
    var d := Step(c, trace[|trace| - 1]);
    forall i | 0 <= i < |c.sets| ensures Recent(d.sets[i], trace, c.geo, i) {
      StepKeepsRecentAt(c, trace, i);
    }
  }

  /** After every trace each set holds exactly the 2^S most recently used tags of its index. */
  lemma {:induction false} LruContents(c: Cache, trace: seq<Access>)
    requires Fresh(c) && |trace| < WORD
    ensures AllRecent(Run(c, trace), trace)
  {
    if trace == [] {
      forall i | 0 <= i < |c.sets| ensures Recent(c.sets[i], trace, c.geo, i) {
        NoneValid(c.sets[i]);
      }
    } else {
      LruContents(c, trace[..|trace| - 1]);
      StepKeepsRecent(Run(c, trace[..|trace| - 1]), trace);
    }
  }

  lemma {:induction false} NoneValid(s: Set)
    requires forall j :: 0 <= j < |s| ==> !s[j].valid
    ensures CountValid(s) == 0
  {
    if s != [] {
      assert forall j :: 0 <= j < |s[1..]| ==> s[1..][j] == s[j + 1];
      NoneValid(s[1..]);
    }
  }

  // ---------------------------------------------------------------- stack distance

  /** The blocks used since a block are those before it in the recency list. */
  lemma {:induction false} SinceIsPrefix(trace: seq<Access>, g: Geometry, index: nat, k: nat)
    requires g.Legal() && k < |Recency(trace, g, index)|
    ensures var r := Recency(trace, g, index);
            var used := UsedSince(trace, g, Line(index, r[k]));
            |used| == k && forall y :: y in used <==> y in r[..k]
  {
    hide Recency, UsedSince, ToFront, LineOf, Find;
    NoRecencyAtStart(trace, g, index);
    var before := trace[..|trace| - 1];
    var l, q := LineOf(trace[|trace| - 1], g), Recency(before, g, index);
    RecencyOrdered(before, g, index);
    LastUseUnfolds(trace, g, index, k);
    if l.index != index {
      SinceIsPrefix(before, g, index, k);
    } else if k > 0 {
      ToFrontAt(q, l.tag);
      var j := From(k, Find(q, l.tag));
      SinceIsPrefix(before, g, index, j);
      SinceOneMore(trace, g, index, k, j);
    }
  }

  lemma NoRecencyAtStart(trace: seq<Access>, g: Geometry, index: nat)
    requires g.Legal() && Recency(trace, g, index) != []
    ensures trace != []
  {
  }

  /** A use of another set changes nothing here; a use of this one starts the list with its tag. */
  lemma LastUseUnfolds(trace: seq<Access>, g: Geometry, index: nat, k: nat)
    requires g.Legal() && trace != [] && k < |Recency(trace, g, index)|
    ensures var before, l := trace[..|trace| - 1], LineOf(trace[|trace| - 1], g);
            var q, r := Recency(before, g, index), Recency(trace, g, index);
            if l.index == index then r == ToFront(q, l.tag) && (k == 0 ==> UsedSince(trace, g, Line(index, r[k])) == {})
            else r == q && UsedSince(trace, g, Line(index, r[k])) == UsedSince(before, g, Line(index, q[k]))
  {
    hide LineOf;
  }

  lemma SinceOneMore(trace: seq<Access>, g: Geometry, index: nat, k: nat, j: nat)
    requires g.Legal() && trace != [] && 0 < k < |Recency(trace, g, index)|
    requires var before, l := trace[..|trace| - 1], LineOf(trace[|trace| - 1], g);
             var q := Recency(before, g, index);
             && l.index == index && j == From(k, Find(q, l.tag)) && j < |q| && Distinct(q)
             && (var used := UsedSince(before, g, Line(index, q[j]));
                 |used| == j && forall y :: y in used <==> y in q[..j])
    ensures var r := Recency(trace, g, index);
            var used := UsedSince(trace, g, Line(index, r[k]));
            |used| == k && forall y :: y in used <==> y in r[..k]
  {
    hide Recency, UsedSince, ToFront, Find, From;
    SinceUnfolds(trace, g, index, k, j);
    var before, l := trace[..|trace| - 1], LineOf(trace[|trace| - 1], g);
    var q := Recency(before, g, index);
    var earlier := UsedSince(before, g, Line(index, q[j]));
    SincePrefixStep(q, l.tag, k);
    FromStep(k, Find(q, l.tag));
    if l.tag in earlier {
      assert earlier + {l.tag} == earlier;
    } else {
      assert |earlier + {l.tag}| == j + 1;
    }
  }

  /** What one more use does to the recency list and to the tags used since `r[k]`. */
  lemma SinceUnfolds(trace: seq<Access>, g: Geometry, index: nat, k: nat, j: nat)
    requires g.Legal() && trace != [] && 0 < k < |Recency(trace, g, index)|
    requires var before, l := trace[..|trace| - 1], LineOf(trace[|trace| - 1], g);
             var q := Recency(before, g, index);
             l.index == index && j == From(k, Find(q, l.tag)) && j < |q| && Distinct(q)
    ensures var before, l := trace[..|trace| - 1], LineOf(trace[|trace| - 1], g);
            var q, r := Recency(before, g, index), Recency(trace, g, index);
            && r == ToFront(q, l.tag)
            && UsedSince(trace, g, Line(index, r[k])) == UsedSince(before, g, Line(index, q[j])) + {l.tag}
  {
    hide LineOf;
    var l := LineOf(trace[|trace| - 1], g);
    ToFrontAt(Recency(trace[..|trace| - 1], g, index), l.tag);
  }

  lemma FromStep(k: nat, f: nat)
    ensures From(k, f) == k || From(k, f) == k - 1
  {
  }

  /** Moving `x` to the front adds it to every prefix, of which it may already have been one. */
  lemma SincePrefixStep(q: seq<u64>, x: u64, k: nat)
    requires Distinct(q) && 0 < k < |ToFront(q, x)|
    ensures var j := From(k, Find(q, x));
            && 0 <= j < |q| && (forall y :: y in ToFront(q, x)[..k] <==> y == x || y in q[..j])
            && (x in q[..j] <==> j == k)
  {
    var f, t := Find(q, x), ToFront(q, x);
    var j := From(k, f);
    if k <= f {
      assert t[..k] == [x] + q[..k - 1];
    } else {
      assert q[f] == x;
      assert t[..k] == [x] + q[..f] + q[f + 1..k];
      assert q[..k] == q[..f] + [x] + q[f + 1..k];
    }
  }

  /** An access hits exactly when its block was used before and fewer than 2^S distinct other blocks of
      its set were used since. */
  lemma StackDistance(c: Cache, trace: seq<Access>, a: Access)
    requires Fresh(c) && |trace| < WORD
    ensures var l := LineOf(a, c.geo);
            Hit(Run(c, trace), a) <==> LastUse(trace, c.geo, l) > 0 && |UsedSince(trace, c.geo, l)| < Ways(c.geo)
  {
    hide Recent, Recency, Run, Hit, UsedSince, LastUse, Holds, Find;
    var g, l, d := c.geo, LineOf(a, c.geo), Run(c, trace);
    LruContents(c, trace);
    AddressSplit(a.addr, g);
    var s, r := d.sets[l.index], Recency(trace, g, l.index);
    HitIsHolds(d, a);
    HoldsIsTop(s, trace, g, l.index, l.tag);
    RecencyComplete(trace, g, l.index, l.tag);
    if l.tag in r {
      RecencyOrdered(trace, g, l.index);
      var k := Find(r, l.tag);
      SinceIsPrefix(trace, g, l.index, k);
      assert l.tag in Top(r, |s|) <==> k < |s|;
    }
  }

  lemma HitIsHolds(c: Cache, a: Access)
    requires Sized(c)
    ensures var l := LineOf(a, c.geo); l.index < |c.sets| && (Hit(c, a) <==> Holds(c.sets[l.index], l.tag))
  {
    AddressSplit(a.addr, c.geo);
  }
}

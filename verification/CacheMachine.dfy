/** The cache simulator as it stores its state: an array of blocks, a counter and statistics. */
module CacheMachine {
  import opened Wrappers
  import opened Arith
  import opened CacheAddress
  import opened CacheState

  /** Stamping a block with the next time. */
  function Touch(c: Cache, i: nat, k: nat): Cache
    requires i < |c.sets| && k < |c.sets[i]|
  {
    var now := Tick(c.counter);
    c.(sets := c.sets[i := c.sets[i][k := c.sets[i][k].(lru := now)]], counter := now)
  }

  /** An access already counted in `accesses`. */
  function StepCounted(c: Cache, a: Access): Cache
    requires Sized(c)
  {
    var d := Step(c, a);
    d.(stats := d.stats.(accesses := c.stats.accesses))
  }

  lemma CountedFirst(c: Cache, d: Cache, a: Access)
    requires Sized(c) && d == c.(stats := c.stats.(accesses := c.stats.accesses + 1))
    ensures Sized(d) && StepCounted(d, a) == Step(c, a)
  {
  }

  /** Two caches that differ in one block. */
  lemma SameSets(s: seq<Set>, t: seq<Set>, i: nat, k: nat)
    requires i < |s| == |t| && k < |s[i]| == |t[i]|
    requires forall j :: 0 <= j < |s| && j != i ==> t[j] == s[j]
    requires forall j :: 0 <= j < |s[i]| && j != k ==> t[i][j] == s[i][j]
    ensures t == s[i := s[i][k := t[i][k]]]
  {
    assert t[i] == s[i][k := t[i][k]];
  }

  /** Where an access goes, and when it hits and evicts. */
  lemma SlotOf(c: Cache, a: Access)
    requires Sized(c)
    ensures var i := GetIndex(a.addr, c.geo);
      && i < |c.sets| && c.sets[i] != []
      && var s := c.sets[i];
        && Slot(c, a) == Chosen(s, GetTag(a.addr, c.geo))
        && (Hit(c, a) <==> FindTag(s, GetTag(a.addr, c.geo), 0) < |s|)
        && (Hit(c, a) ==> Slot(c, a) == FindTag(s, GetTag(a.addr, c.geo), 0))
        && (Evicts(c, a) <==> !Hit(c, a) && FindInvalid(s, 0) == |s|)
  {
    AddressSplit(a.addr, c.geo);
  }

  class Simulator {
    const geo: Geometry
    const blocks: array2<Block>
    var counter: u64
    var stats: Stats

    ghost predicate Valid() {
      geo.Legal() && blocks.Length0 == NumSets(geo) && blocks.Length1 == Ways(geo)
    }

    ghost function SetAt(i: nat): (s: Set)
      requires i < blocks.Length0
      reads blocks
      ensures |s| == blocks.Length1 && forall j :: 0 <= j < |s| ==> s[j] == blocks[i, j]
    {
      seq(blocks.Length1, j requires 0 <= j < blocks.Length1 reads blocks => blocks[i, j])
    }

    ghost function View(): (c: Cache)
      requires Valid()
      reads this, blocks
      ensures Sized(c)
      ensures |c.sets| == blocks.Length0 && forall i :: 0 <= i < blocks.Length0 ==> c.sets[i] == SetAt(i)
    {
      Cache(geo, seq(blocks.Length0, i requires 0 <= i < blocks.Length0 reads blocks => SetAt(i)), counter, stats)
    }

    /** Overwrites one block. */
    method SetBlock(i: nat, k: nat, b: Block)
      requires Valid() && i < blocks.Length0 && k < blocks.Length1
      modifies blocks
      ensures View() == old(View()).(sets := old(View()).sets[i := old(View()).sets[i][k := b]])
    {
      blocks[i, k] := b;
      assert SetAt(i) == old(SetAt(i))[k := b];
      assert forall j :: 0 <= j < blocks.Length0 && j != i ==> SetAt(j) == old(SetAt(j));
    }

    /** Stamps a block with the next time. */
    method TouchBlock(i: nat, k: nat)
      requires Valid() && i < blocks.Length0 && k < blocks.Length1
      modifies this`counter, blocks
      ensures View() == Touch(old(View()), i, k)
    {
      counter := Tick(counter);
      SetBlock(i, k, blocks[i, k].(lru := counter));
    }

    /** Looks an address up and stamps the block it finds. */
    method GetBlock(addr: u64) returns (found: Option<nat>)
      requires Valid()
      modifies this`counter, blocks
      ensures GetIndex(addr, geo) < blocks.Length0
      ensures var i, s := GetIndex(addr, geo), old(View()).sets[GetIndex(addr, geo)];
              var k := FindTag(s, GetTag(addr, geo), 0);
              && found == (if k < |s| then Some(k) else None)
              && View() == if k < |s| then Touch(old(View()), i, k) else old(View())
    {
      AddressSplit(addr, geo);
      var index, tag := GetIndex(addr, geo), GetTag(addr, geo);
      var i := 0;
      while i < blocks.Length1
        invariant 0 <= i <= blocks.Length1
        invariant FindTag(SetAt(index), tag, 0) == FindTag(SetAt(index), tag, i)
      {
        if blocks[index, i].tag == tag && blocks[index, i].valid {
          TouchBlock(index, i);
          return Some(i);
        }
        i := i + 1;
      }
      return None;
    }

    /** Finds an invalid block of the address's set and stamps it. */
    method FindInvalidBlock(addr: u64) returns (found: Option<nat>)
      requires Valid()
      modifies this`counter, blocks
      ensures GetIndex(addr, geo) < blocks.Length0
      ensures var i, s := GetIndex(addr, geo), old(View()).sets[GetIndex(addr, geo)];
              var k := FindInvalid(s, 0);
              && found == (if k < |s| then Some(k) else None)
              && View() == if k < |s| then Touch(old(View()), i, k) else old(View())
    {
      AddressSplit(addr, geo);
      var index := GetIndex(addr, geo);
      var i := 0;
      while i < blocks.Length1
        invariant 0 <= i <= blocks.Length1
        invariant FindInvalid(SetAt(index), 0) == FindInvalid(SetAt(index), i)
      {
        if !blocks[index, i].valid {
          TouchBlock(index, i);
          return Some(i);
        }
        i := i + 1;
      }
      return None;
    }

    /** Finds the first block with the smallest time and stamps it. */
    method FindLruBlock(addr: u64) returns (choose: nat)
      requires Valid()
      modifies this`counter, blocks
      ensures GetIndex(addr, geo) < blocks.Length0
      ensures var i, s := GetIndex(addr, geo), old(View()).sets[GetIndex(addr, geo)];
              choose == FindLru(s, 0, 0) && View() == Touch(old(View()), i, choose)
    {
      AddressSplit(addr, geo);
      var index := GetIndex(addr, geo);
      choose := 0;
      var i := 0;
      while i < blocks.Length1
        invariant 0 <= i <= blocks.Length1 && choose < blocks.Length1
        invariant FindLru(SetAt(index), 0, 0) == FindLru(SetAt(index), i, choose)
      {
        if blocks[index, choose].lru > blocks[index, i].lru {
          choose := i;
        }
        i := i + 1;
      }
      TouchBlock(index, choose);
    }

    /** The block a miss fills: an invalid one, else the least recently used, counting its write-back. */
    method Allocate(addr: u64) returns (k: nat)
      requires Valid()
      modifies this`counter, this`stats, blocks
      ensures GetIndex(addr, geo) < blocks.Length0
      ensures var c, i := old(View()), GetIndex(addr, geo);
              var s, v := c.sets[i], FindInvalid(c.sets[i], 0);
              && k == (if v < |s| then v else FindLru(s, 0, 0))
              && View() == Touch(c, i, k).(stats := stats)
              && stats == c.stats.(writeBacks := c.stats.writeBacks + if v == |s| && s[k].dirty then 1 else 0)
    {
      hide FindInvalid, FindLru, GetIndex, Pow2, NumSets, Tick, SetAt;
      var found := FindInvalidBlock(addr);
      match found {
        case Some(i) =>
          k := i;
        case None =>
          k := FindLruBlock(addr);
          ghost var i, c := GetIndex(addr, geo), old(View());
          assert View().sets[i] == SetAt(i) && SetAt(i)[k].dirty == c.sets[i][k].dirty;
          if blocks[GetIndex(addr, geo), k].dirty {
            stats := stats.(writeBacks := stats.writeBacks + 1);
          }
      }
    }

    /** Simulates one access. */
    method CacheAccess(a: Access)
      requires Valid()
      modifies this`counter, this`stats, blocks
      ensures View() == Step(old(View()), a)
    {
      hide Step, StepCounted;
      stats := stats.(accesses := stats.accesses + 1);
      CountedFirst(old(View()), View(), a);
      if a.kind.Read? {
        CacheRead(a);
      } else {
        CacheWrite(a);
      }
    }

    /** A miss: its block is allocated and filled. */
    method Fill(addr: u64, dirty: bool) returns (k: nat)
      requires Valid() && GetIndex(addr, geo) < blocks.Length0
      requires var s := View().sets[GetIndex(addr, geo)]; FindTag(s, GetTag(addr, geo), 0) == |s|
      modifies this`counter, this`stats, blocks
      ensures var c, i, tag := old(View()), GetIndex(addr, geo), GetTag(addr, geo);
              var s := c.sets[i];
              && s != [] && k == Chosen(s, tag)
              && View() == Cache(geo, c.sets[i := s[k := Block(true, tag, Tick(c.counter), dirty)]], Tick(c.counter),
                                 stats)
              && stats == c.stats.(writeBacks :=
                   c.stats.writeBacks + if FindInvalid(s, 0) == |s| && s[k].dirty then 1 else 0)
    {
      hide FindTag, FindInvalid, FindLru, GetIndex, GetTag, Pow2, NumSets, Tick, SetAt;
      var tag, index := GetTag(addr, geo), GetIndex(addr, geo);
      k := Allocate(addr);
      assert View().sets[index] == SetAt(index);
      SetBlock(index, k, blocks[index, k].(valid := true, dirty := dirty, tag := tag));
      SameSets(old(View()).sets, View().sets, index, k);
    }

    method CacheRead(a: Access)
      requires Valid() && a.kind.Read?
      modifies this`counter, this`stats, blocks
      ensures View() == StepCounted(old(View()), a)
    {
      hide FindTag, FindInvalid, FindLru, GetIndex, GetTag, Pow2, NumSets, Tick, SetAt, Chosen;
      AddressSplit(a.addr, geo);
      stats := stats.(readCount := stats.readCount + 1);
      var found := GetBlock(a.addr);
      SlotOf(old(View()), a);
      if found == None {
        var k := Fill(a.addr, false);
        stats := stats.(readMisses := stats.readMisses + 1);
      }
    }

    method CacheWrite(a: Access)
      requires Valid() && a.kind.Write?
      modifies this`counter, this`stats, blocks
      ensures View() == StepCounted(old(View()), a)
    {
      hide FindTag, FindInvalid, FindLru, GetIndex, GetTag, Pow2, NumSets, Tick, SetAt, Chosen;
      AddressSplit(a.addr, geo);
      var index := GetIndex(a.addr, geo);
      stats := stats.(writeCount := stats.writeCount + 1);
      var found := GetBlock(a.addr);
      SlotOf(old(View()), a);
      var k: nat;
      if found == None {
        k := Fill(a.addr, true);
        stats := stats.(writeMisses := stats.writeMisses + 1);
      } else {
        k := found.value;
      }
      MarkDirty(index, k);
      SameSets(old(View()).sets, View().sets, index, k);
    }

    method MarkDirty(i: nat, k: nat)
      requires Valid() && i < blocks.Length0 && k < blocks.Length1
      modifies blocks
      ensures var sets := old(View()).sets;
              View() == old(View()).(sets := sets[i := sets[i][k := sets[i][k].(dirty := true)]])
    {
      assert View().sets[i] == SetAt(i);
      SetBlock(i, k, blocks[i, k].(dirty := true));
    }

    /** `cache_init`: every block is made invalid and clean; tags and times keep what the allocation gave. */
    constructor (geo: Geometry)
      requires geo.Legal()
      ensures Valid() && Fresh(View())
    {
      this.geo := geo;
      blocks := new Block[NumSets(geo), Ways(geo)];
      counter := 0;
      stats := Stats(0, 0, 0, 0, 0, 0);
      new;
      var i := 0;
      while i < blocks.Length0
        invariant 0 <= i <= blocks.Length0 && counter == 0 && stats == Stats(0, 0, 0, 0, 0, 0)
        invariant forall p, q :: 0 <= p < i && 0 <= q < blocks.Length1 ==> !blocks[p, q].valid && !blocks[p, q].dirty
      {
        var j := 0;
        while j < blocks.Length1
          invariant 0 <= j <= blocks.Length1 && counter == 0 && stats == Stats(0, 0, 0, 0, 0, 0)
          invariant forall p, q :: 0 <= p < i && 0 <= q < blocks.Length1 ==> !blocks[p, q].valid && !blocks[p, q].dirty
          invariant forall q :: 0 <= q < j ==> !blocks[i, q].valid && !blocks[i, q].dirty
        {
          blocks[i, j] := blocks[i, j].(valid := false, dirty := false);
          j := j + 1;
        }
        i := i + 1;
      }
    }
  }
}

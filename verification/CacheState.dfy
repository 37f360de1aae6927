/** The set-associative write-back cache as values: one function for each step of an access. */
module CacheState {
  import opened Arith
  import opened CacheAddress

  datatype Kind = Read | Write
  datatype Access = Access(kind: Kind, addr: u64)

  datatype Block = Block(valid: bool, tag: u64, lru: u64, dirty: bool)
  type Set = seq<Block>
  datatype Stats = Stats(accesses: nat, readCount: nat, readMisses: nat, writeCount: nat, writeMisses: nat,
                         writeBacks: nat)
  datatype Cache = Cache(geo: Geometry, sets: seq<Set>, counter: u64, stats: Stats)

  /** The block an address lies in: its set and its tag. */
  datatype Line = Line(index: nat, tag: u64)

  function LineOf(a: Access, g: Geometry): Line
    requires g.Legal()
  {
    Line(GetIndex(a.addr, g), GetTag(a.addr, g))
  }

  function Ways(g: Geometry): nat {
    Pow2(g.S)
  }

  ghost predicate Sized(c: Cache) {
    c.geo.Legal() && |c.sets| == NumSets(c.geo) && forall i :: 0 <= i < |c.sets| ==> |c.sets[i]| == Ways(c.geo)
  }

  /** What `cache_init` leaves: every block invalid and clean, its tag and time whatever `malloc` gave. */
  ghost predicate Fresh(c: Cache) {
    && Sized(c) && c.counter == 0 && c.stats == Stats(0, 0, 0, 0, 0, 0)
    && forall i, j :: 0 <= i < |c.sets| && 0 <= j < |c.sets[i]| ==> !c.sets[i][j].valid && !c.sets[i][j].dirty
  }

  /** No tag is held twice. */
  predicate OncePerSet(s: Set) {
    forall i, j :: 0 <= i < j < |s| && s[i].valid && s[j].valid ==> s[i].tag != s[j].tag
  }

  function FindTag(set': Set, tag: u64, i: nat): (k: nat)
    requires i <= |set'|
    ensures i <= k <= |set'|
    ensures k < |set'| ==> set'[k].valid && set'[k].tag == tag
    ensures forall j :: i <= j < k ==> !(set'[j].valid && set'[j].tag == tag)
    decreases |set'| - i
  {
    if i == |set'| || (set'[i].tag == tag && set'[i].valid) then i else FindTag(set', tag, i + 1)
  }

  function FindInvalid(set': Set, i: nat): (k: nat)
    requires i <= |set'|
    ensures i <= k <= |set'|
    ensures k < |set'| ==> !set'[k].valid
    ensures forall j :: i <= j < k ==> set'[j].valid
    decreases |set'| - i
  {
    if i == |set'| || !set'[i].valid then i else FindInvalid(set', i + 1)
  }

  /** The first block with the smallest time from `i` on, starting from the best one so far. */
  function FindLru(set': Set, i: nat, choose: nat): (k: nat)
    requires i <= |set'| && choose < |set'|
    ensures k < |set'| && set'[k].lru <= set'[choose].lru
    ensures forall j :: i <= j < |set'| ==> set'[k].lru <= set'[j].lru
    ensures k == choose || (i <= k && set'[k].lru < set'[choose].lru)
    ensures k != choose ==> forall j :: i <= j < k ==> set'[k].lru < set'[j].lru
    decreases |set'| - i
  {
    if i == |set'| then choose
    else FindLru(set', i + 1, if set'[choose].lru > set'[i].lru then i else choose)
  }

  /** The global counter is a 64-bit word. */
  function Tick(counter: u64): u64 {
    (counter + 1) % WORD
  }

  function Hit(c: Cache, a: Access): bool
    requires Sized(c)
  {
    var l := LineOf(a, c.geo);
    AddressSplit(a.addr, c.geo);
    FindTag(c.sets[l.index], l.tag, 0) < |c.sets[l.index]|
  }

  /** A miss that finds no invalid block. */
  function Evicts(c: Cache, a: Access): bool
    requires Sized(c)
  {
    AddressSplit(a.addr, c.geo);
    var s := c.sets[GetIndex(a.addr, c.geo)];
    !Hit(c, a) && FindInvalid(s, 0) == |s|
  }

  /** The block that an access to `tag` uses: the hit, else an invalid one, else the least recently used. */
  function Chosen(s: Set, tag: u64): (k: nat)
    requires s != []
    ensures k < |s|
  {
    var k := FindTag(s, tag, 0);
    var v := FindInvalid(s, 0);
    if k < |s| then k else if v < |s| then v else FindLru(s, 0, 0)
  }

  function Slot(c: Cache, a: Access): (k: nat)
    requires Sized(c)
    ensures GetIndex(a.addr, c.geo) < |c.sets| && k < |c.sets[GetIndex(a.addr, c.geo)]|
  {
    AddressSplit(a.addr, c.geo);
    var l := LineOf(a, c.geo);
    Chosen(c.sets[l.index], l.tag)
  }

  /** `cache_access`. */
  function Step(c: Cache, a: Access): (r: Cache)
    requires Sized(c)
    ensures Sized(r) && r.geo == c.geo
  {
    AddressSplit(a.addr, c.geo);
    var l := LineOf(a, c.geo);
    var s, k := c.sets[l.index], Slot(c, a);
    var was, now := s[k], Tick(c.counter);
    var hit, write := Hit(c, a), a.kind.Write?;
    var block := if hit then was.(lru := now, dirty := was.dirty || write) else Block(true, l.tag, now, write);
    var one := (b: bool) => if b then 1 else 0;
    Cache(c.geo, c.sets[l.index := s[k := block]], now,
      Stats(c.stats.accesses + 1,
            c.stats.readCount + one(!write), c.stats.readMisses + one(!write && !hit),
            c.stats.writeCount + one(write), c.stats.writeMisses + one(write && !hit),
            c.stats.writeBacks + one(Evicts(c, a) && was.dirty)))
  }

  /** A whole trace, in order. */
  function Run(c: Cache, trace: seq<Access>): (r: Cache)
    requires Sized(c)
    ensures Sized(r) && r.geo == c.geo
  {
    if trace == [] then c else Step(Run(c, trace[..|trace| - 1]), trace[|trace| - 1])
  }
}

/** The pool of byte slices in size classes (memorypool/slicepool.go). */
module SlicePools {
  import opened Arithmetic

  type byte = n: int | 0 <= n < 256

  /** A slice of the whole front of a buffer; a nil slice has no buffer. */
  datatype Slice = Nil | Slice(buf: array<byte>, len: nat) {
    predicate Ok() {
      Slice? ==> len <= buf.Length
    }

    function Cap(): (r: nat) {
      if Nil? then 0 else buf.Length
    }

    ghost function Bytes(): (r: seq<byte>)
      reads if Slice? then {buf} else {}
      requires Ok()
    {
      if Nil? then [] else buf[..len]
    }
  }

  // Part 1: Size classes.

  /** The sizes from `min` to `max`, in classes that are `growth` apart. */
  datatype Area = Area(min: int, max: int, growth: int) {
    ghost predicate Ok() {
      0 < min <= max + 1 && 0 < growth
    }

    /** The last class ends exactly at the end of the area. */
    ghost predicate Full() {
      Ok() && min <= max && (max - min + 1) % growth == 0
    }

    /** The capacity of the last class. */
    function Top(): (r: int)
      requires Ok()
    {
      (min - 1) + Classes() * growth
    }

    function Classes(): (r: nat)
      requires Ok()
    {
      (max - min + 1) / growth
    }

    /** The capacity of every buffer of a class. */
    function ClassSize(pos: nat): (r: int) {
      (min - 1) + (pos + 1) * growth
    }

    /** `getPosByteSize`; the division truncates. */
    function PosOf(size: int): (r: int)
      requires Ok()
    {
      var pos := GoDiv(size - min, growth);
      if pos >= Classes() then -1 else pos
    }
  }

  lemma DivUnique(a: int, b: int, q: int)
    requires 0 < b && q * b <= a < (q + 1) * b
    ensures a / b == q
  {
    var d := a / b;
    if d < q { MulMonotone(d + 1, q, b); }
    if q < d { MulMonotone(q + 1, d, b); }
  }

  lemma FullTop(a: Area)
    requires a.Full()
    ensures a.Classes() >= 1 && a.Top() == a.max
  {
  }

  lemma PosBelow(a: Area, size: int)
    requires a.Ok() && size < a.min
    ensures 0 <= a.PosOf(size) <==> 0 < a.Classes() && a.min - a.growth < size
    ensures 0 <= a.PosOf(size) ==> a.PosOf(size) == 0
  {
    var d := a.min - size;
    if d < a.growth {
      DivUnique(d, a.growth, 0);
    } else {
      DivAtLeastOne(d, a.growth);
    }
  }

  lemma PosAbove(a: Area, size: int)
    requires a.Ok() && a.min <= size
    ensures 0 <= a.PosOf(size) <==> size <= a.Top()
    ensures 0 <= a.PosOf(size) ==> a.PosOf(size) < a.Classes() && size <= a.ClassSize(a.PosOf(size))
    ensures 0 < a.PosOf(size) ==> a.ClassSize(a.PosOf(size) - 1) < size
  {
    var q := (size - a.min) / a.growth;
    DivBounds(size - a.min, a.growth);
    if a.Classes() <= q {
      MulMonotone(a.Classes(), q, a.growth);
    } else {
      MulMonotone(q + 1, a.Classes(), a.growth);
    }
  }

  /** Exactly the sizes up to the last class, and those less than one growth below the first size, have a class: the
      first one that is large enough. */
  lemma PosFits(a: Area, size: int)
    requires a.Ok()
    ensures 0 <= a.PosOf(size) <==> 0 < a.Classes() && a.min - a.growth < size <= a.Top()
    ensures 0 <= a.PosOf(size) ==> a.PosOf(size) < a.Classes() && size <= a.ClassSize(a.PosOf(size))
    ensures 0 < a.PosOf(size) ==> a.ClassSize(a.PosOf(size) - 1) < size
    ensures a.Top() <= a.max < a.Top() + a.growth
  {
    hide Area.PosOf;
    DivBounds(a.max - a.min + 1, a.growth);
    TopBounds(a);
    if size < a.min {
      PosBelow(a, size);
    } else {
      PosAbove(a, size);
    }
  }

  lemma TopBounds(a: Area)
    requires a.Ok()
    ensures if 0 < a.Classes() then a.min <= a.ClassSize(0) <= a.Top() else a.Top() == a.min - 1
  {
    if 0 < a.Classes() { MulMonotone(1, a.Classes(), a.growth); }
  }

  lemma DivAtLeastOne(a: int, b: int)
    requires 0 < b <= a
    ensures a / b >= 1
  {
  }

  lemma DivBounds(a: int, b: int)
    requires 0 <= a && 0 < b
    ensures 0 <= a / b && (a / b) * b <= a < (a / b + 1) * b
  {
  }

  /** The capacity of a class leads back to the class. */
  lemma ClassPos(a: Area, pos: nat)
    requires a.Ok() && pos < a.Classes()
    ensures a.PosOf(a.ClassSize(pos)) == pos && a.min <= a.ClassSize(pos) <= a.Top()
  {
    var d := a.ClassSize(pos) - a.min;
    assert d == pos * a.growth + (a.growth - 1);
    DivUnique(d, a.growth, pos);
    MulMonotone(1, pos + 1, a.growth);
    MulMonotone(pos + 1, a.Classes(), a.growth);
  }

  /** A capacity is that of a class exactly when the class found for it has that capacity. */
  ghost predicate IsClassSize(a: Area, size: int)
    requires a.Ok()
  {
    exists pos: nat :: pos < a.Classes() && a.ClassSize(pos) == size
  }

  /** The three areas of the connections. */
  function MsgAreas(): (areas: seq<Area>)
    ensures AreasOk(areas)
  {
    [Area(1, 4096, 512), Area(4097, 40960, 4096), Area(40961, 417792, 16384)]
  }

  /** The classes of the connections: multiples of 512, from there on of 4096, and from there on of 16384. */
  lemma MsgClasses(pos: nat)
    ensures var areas := MsgAreas();
            && |areas| == 3 && areas[0].max == 4096 && areas[1].max == 40960 && areas[2].max == 417792
            && areas[0].Classes() == 8 && areas[0].ClassSize(pos) == 512 * (pos + 1)
            && areas[1].Classes() == 9 && areas[1].ClassSize(pos) == 4096 + 4096 * (pos + 1)
            && areas[2].Classes() == 23 && areas[2].ClassSize(pos) == 40960 + 16384 * (pos + 1)
  {
  }

  /** The areas follow each other without gaps, from size one on; with a first growth of one, size zero would have
      no class. */
  ghost predicate AreasOk(areas: seq<Area>) {
    && 0 < |areas| && areas[0].min == 1 && 1 < areas[0].growth
    && (forall i :: 0 <= i < |areas| ==> areas[i].Full())
    && forall i :: 0 < i < |areas| ==> areas[i].min == areas[i - 1].max + 1
  }

  lemma {:induction false} AreasGrow(areas: seq<Area>, i: nat, j: nat)
    requires AreasOk(areas) && i <= j < |areas|
    ensures areas[i].max <= areas[j].max && areas[i].min <= areas[j].min
  {
    if i < j { AreasGrow(areas, i, j - 1); }
  }

  // Part 2: One area.

  class SlicePool {
    const area: Area
    var pool: seq<seq<Slice>>

    /** Every bucket holds only buffers of its own class, and none of them twice. */
    ghost predicate Valid()
      reads this
    {
      && area.Ok() && |pool| == area.Classes()
      && (forall pos, s :: 0 <= pos < |pool| && s in pool[pos] ==> s.Slice? && s.Ok() && s.Cap() == area.ClassSize(pos))
      && (forall pos :: 0 <= pos < |pool| ==> Distinct(pool[pos]))
    }

    ghost function Buffers(): (r: set<array<byte>>)
      reads this
    {
      set b, s | b in pool && s in b && s.Slice? :: s.buf
    }

    constructor (area: Area)
      requires area.Ok()
      ensures Valid() && this.area == area && forall pos :: 0 <= pos < |pool| ==> pool[pos] == []
    {
      this.area := area;
      pool := seq((area.max - area.min + 1) / area.growth, _ => []);
    }

    /** Buffers of different buckets differ in length. */
    lemma InItsBucket(s: Slice, pos: nat)
      requires Valid() && s.Slice? && pos < |pool| && s.Cap() == area.ClassSize(pos)
      ensures s.buf in Buffers() <==> exists t :: t in pool[pos] && t.Slice? && t.buf == s.buf
    {
      if s.buf in Buffers() {
        var b, t :| b in pool && t in b && t.Slice? && t.buf == s.buf;
        var p: nat :| p < |pool| && pool[p] == b;
        ClassPos(area, p);
        ClassPos(area, pos);
        assert t in pool[pos];
      }
      if t :| t in pool[pos] && t.Slice? && t.buf == s.buf {
        assert pool[pos] in pool;
      }
    }

    /** A slice of the asked length whose buffer the pool no longer holds, from the bucket of its class or newly made;
        nil for a size beyond the last class, or up to two growths below the first size; for smaller sizes the index
        is out of range. */
    method MakeByteSlice(size: nat) returns (s: Slice, panics: bool)
      requires Valid()
      modifies this
      ensures Valid() && (s.Slice? <==> 0 <= area.PosOf(size)) && (panics <==> area.PosOf(size) < -1)
      ensures s.Nil? ==> pool == old(pool)
      ensures s.Slice? ==> s.Ok() && s.len == size && s.Cap() == area.ClassSize(area.PosOf(size))
      ensures s.Slice? ==> s.buf !in Buffers() && Buffers() <= old(Buffers())
      ensures s.Slice? ==> fresh(s.buf) || s.buf in old(Buffers())
    {
      PosFits(area, size);
      var pos := area.PosOf(size);
      if pos > |pool| || pos == -1 {
        return Nil, false;
      }
      if pos < 0 {
        return Nil, true;
      }
      panics := false;
      var reuse: int := *;
      if 0 <= reuse < |pool[pos]| {
        s := pool[pos][reuse];
        assert pool[pos] in pool && s in pool[pos];
        TakeOut(pool[pos], reuse);
        ghost var before := pool;
        pool := pool[pos := pool[pos][..reuse] + pool[pos][reuse + 1..]];
        Fewer(before, pos);
      } else {
        var buf := new byte[area.ClassSize(pos)](_ => 0);
        s := Slice(buf, buf.Length);
      }
      InItsBucket(s, pos);
      s := Slice(s.buf, size);
    }

    /** A bucket that lost an entry has only buffers it had. */
    lemma Fewer(before: seq<seq<Slice>>, pos: nat)
      requires pos < |before| == |pool| && pool == before[pos := pool[pos]]
      requires forall t :: t in pool[pos] ==> t in before[pos]
      ensures forall b, s :: b in pool && s in b && s.Slice? ==> exists c :: c in before && s in c
    {
      forall b, s | b in pool && s in b && s.Slice? ensures exists c :: c in before && s in c {
        var p: nat :| p < |pool| && pool[p] == b;
        assert before[p] in before && s in before[p];
      }
    }

    lemma OneMore(before: seq<seq<Slice>>, pos: nat, s: Slice)
      requires pos < |before| && pool == before[pos := before[pos] + [s]]
      ensures s in pool[pos]
      ensures Buffers() == (set b, t | b in before && t in b && t.Slice? :: t.buf) + if s.Slice? then {s.buf} else {}
    {
      forall b, t | b in pool && t in b && t.Slice? ensures t == s || exists c :: c in before && t in c {
        var p: nat :| p < |pool| && pool[p] == b;
        assert before[p] in before;
      }
      forall b, t | b in before && t in b ensures exists c :: c in pool && t in c {
        var p: nat :| p < |before| && before[p] == b;
        assert pool[p] in pool && t in pool[p];
      }
      assert pool[pos] in pool && s in pool[pos];
    }

    /** Puts a slice into the bucket found for its capacity, and panics when there is none. The pool is in order
        afterwards exactly when it panicked, or the capacity is that of a class and the pool did not hold the buffer. */
    method ReleaseByteSlice(s: Slice) returns (panics: bool)
      requires Valid() && s.Ok()
      modifies this
      ensures panics <==> area.PosOf(s.Cap()) < 0
      ensures panics ==> pool == old(pool)
      ensures !panics ==>
                && area.PosOf(s.Cap()) < |old(pool)|
                && pool == old(pool)[area.PosOf(s.Cap()) := old(pool)[area.PosOf(s.Cap())] + [s]]
      ensures Valid() <==> panics || (s.Slice? && IsClassSize(area, s.Cap()) && s.buf !in old(Buffers()))
      ensures Buffers() == old(Buffers()) + (if !panics && s.Slice? then {s.buf} else {})
    {
      PosFits(area, s.Cap());
      var pos := area.PosOf(s.Cap());
      if pos > |pool| || pos == -1 {
        return true;
      }
      if pos < 0 {
        return true;
      }
      panics := false;
      forall p: nat | p < area.Classes() && area.ClassSize(p) == s.Cap() ensures p == pos { ClassPos(area, p); }
      if s.Slice? && s.Cap() == area.ClassSize(pos) { InItsBucket(s, pos); }
      PutIn(pool[pos], s);
      ghost var was := pool;
      pool := pool[pos := pool[pos] + [s]];
      OneMore(was, pos, s);
    }
  }

  /** No buffer occurs twice. */
  ghost predicate Distinct(bucket: seq<Slice>) {
    forall i, j :: 0 <= i < j < |bucket| && bucket[i].Slice? && bucket[j].Slice? ==> bucket[i].buf != bucket[j].buf
  }

  lemma TakeOut(bucket: seq<Slice>, k: nat)
    requires k < |bucket| && Distinct(bucket) && bucket[k].Slice?
    ensures Distinct(bucket[..k] + bucket[k + 1..])
    ensures forall t :: t in bucket[..k] + bucket[k + 1..] ==> t in bucket && (t.Slice? ==> t.buf != bucket[k].buf)
  {
    var rest := bucket[..k] + bucket[k + 1..];
    assert forall i :: 0 <= i < |rest| ==> rest[i] == bucket[if i < k then i else i + 1];
  }

  lemma PutIn(bucket: seq<Slice>, s: Slice)
    requires Distinct(bucket)
    ensures Distinct(bucket + [s]) <==> s.Nil? || forall t :: t in bucket && t.Slice? ==> t.buf != s.buf
  {
    var more := bucket + [s];
    if Distinct(more) && s.Slice? {
      forall t | t in bucket && t.Slice? ensures t.buf != s.buf {
        var i :| 0 <= i < |bucket| && bucket[i] == t;
        assert more[i] == t && more[|bucket|] == s;
      }
    }
  }

  // Part 3: The areas together.

  class SlicePoolList {
    const pools: seq<SlicePool>

    ghost function Areas(): (r: seq<Area>)
    {
      seq(|pools|, i requires 0 <= i < |pools| => pools[i].area)
    }

    ghost predicate Valid()
      reads pools
    {
      && AreasOk(Areas())
      && (forall i, j :: 0 <= i < j < |pools| ==> pools[i] != pools[j])
      && forall i :: 0 <= i < |pools| ==> pools[i].Valid()
    }

    ghost function Buffers(): (r: set<array<byte>>)
      reads pools
    {
      set p, b | p in pools && b in p.Buffers() :: b
    }

    constructor (areas: seq<Area>)
      requires AreasOk(areas)
      ensures Valid() && Areas() == areas && fresh(pools)
    {
      var made: seq<SlicePool> := [];
      var i := 0;
      while i < |areas|
        invariant 0 <= i == |made| <= |areas|
        invariant forall j :: 0 <= j < i ==> fresh(made[j]) && made[j].area == areas[j] && made[j].Valid()
        invariant forall j, k :: 0 <= j < k < i ==> made[j] != made[k]
      {
        var pool := new SlicePool(areas[i]);
        made := made + [pool];
        i := i + 1;
      }
      pools := made;
    }

    /** The largest size that any area serves. */
    ghost function Largest(): (r: int)
      requires AreasOk(Areas())
    {
      pools[|pools| - 1].area.max
    }

    /** A capacity that some bucket keeps. */
    ghost predicate Keeps(size: int)
      requires AreasOk(Areas())
    {
      exists i :: 0 <= i < |pools| && IsClassSize(Areas()[i], size)
    }

    /** A slice of the asked length for every length, whose buffer the pools no longer hold. */
    method MakeByteSlice(size: nat) returns (s: Slice)
      requires Valid()
      modifies pools
      ensures Valid() && s.Slice? && s.Ok() && s.len == size
      ensures if size <= Largest() then Keeps(s.Cap()) else fresh(s.buf) && s.Cap() == size
      ensures s.buf !in Buffers() && Buffers() <= old(Buffers()) && (fresh(s.buf) || s.buf in old(Buffers()))
    {
      var i := 0;
      while i < |pools|
        invariant 0 <= i <= |pools|
        invariant forall j :: 0 <= j < i ==> pools[j].area.max < size
        invariant Valid() && Buffers() == old(Buffers())
        invariant forall p :: p in pools ==> p.Buffers() == old(p.Buffers())
      {
        if size <= pools[i].area.max {
          SizeReaches(i, size);
          var panics;
          s, panics := pools[i].MakeByteSlice(size);
          ClassFound(i, size);
          NotElsewhere(i, s);
          return;
        }
        i := i + 1;
      }
      var buf := new byte[size](_ => 0);
      s := Slice(buf, size);
    }

    lemma SizeReaches(i: nat, size: int)
      requires AreasOk(Areas()) && i < |pools| && 0 <= size <= pools[i].area.max
      requires forall j :: 0 <= j < i ==> pools[j].area.max < size
      ensures pools[i].area.Ok() && 0 <= pools[i].area.PosOf(size) < pools[i].area.Classes()
      ensures pools[i].area.max <= Largest()
    {
      assert Areas()[i] == pools[i].area;
      assert Areas()[|pools| - 1] == pools[|pools| - 1].area;
      AreasGrow(Areas(), i, |pools| - 1);
      assert i > 0 ==> Areas()[i - 1] == pools[i - 1].area;
      FullTop(pools[i].area);
      PosFits(pools[i].area, size);
    }

    lemma ClassFound(i: nat, size: int)
      requires AreasOk(Areas()) && i < |pools| && pools[i].area.Ok() && 0 <= pools[i].area.PosOf(size)
      ensures Keeps(pools[i].area.ClassSize(pools[i].area.PosOf(size)))
    {
      assert Areas()[i] == pools[i].area;
      PosFits(pools[i].area, size);
      assert IsClassSize(Areas()[i], pools[i].area.ClassSize(pools[i].area.PosOf(size)));
    }

    /** A buffer with the capacity of a class of one area is in no other pool. */
    lemma NotElsewhere(i: nat, s: Slice)
      requires Valid() && i < |pools| && s.Slice? && IsClassSize(pools[i].area, s.Cap())
      ensures s.buf in Buffers() <==> s.buf in pools[i].Buffers()
    {
      forall j: nat | j < |pools| && s.buf in pools[j].Buffers() ensures j == i {
        var b, t :| b in pools[j].pool && t in b && t.Slice? && t.buf == s.buf;
        var p: nat :| p < |pools[j].pool| && pools[j].pool[p] == b;
        SameArea(i, j, s.Cap(), p);
      }
      assert pools[i] in pools;
    }

    lemma SameArea(i: nat, j: nat, size: int, p: nat)
      requires AreasOk(Areas()) && i < |pools| && j < |pools| && pools[i].area.Ok() && pools[j].area.Ok()
      requires IsClassSize(pools[i].area, size) && p < pools[j].area.Classes() && pools[j].area.ClassSize(p) == size
      ensures i == j
    {
      var q: nat :| q < pools[i].area.Classes() && pools[i].area.ClassSize(q) == size;
      ClassPos(pools[i].area, q);
      ClassPos(pools[j].area, p);
      assert forall k :: 0 <= k < |pools| ==> Areas()[k] == pools[k].area;
      FullTop(pools[i].area);
      FullTop(pools[j].area);
      assert i < j ==> Areas()[i + 1].min == Areas()[i].max + 1;
      assert j < i ==> Areas()[j + 1].min == Areas()[j].max + 1;
      if i < j { AreasGrow(Areas(), i + 1, j); }
      if j < i { AreasGrow(Areas(), j + 1, i); }
    }

    lemma SomePool()
      requires AreasOk(Areas())
      ensures pools != []
    {
    }

    /** No release panics. A slice too large for every area is dropped; any other is kept, and leaves the pools in
        order exactly when its capacity is that of a class and no pool held its buffer. */
    method ReleaseByteSlice(s: Slice) returns (kept: bool, panics: bool)
      requires Valid() && s.Ok()
      modifies pools
      ensures !panics && kept == (s.Cap() <= Largest())
      ensures Valid() <==> s.Cap() > Largest() || (s.Slice? && Keeps(s.Cap()) && s.buf !in old(Buffers()))
      ensures Buffers() == old(Buffers()) + (if kept && s.Slice? then {s.buf} else {})
    {
      hide SlicePool.Valid, SlicePool.Buffers, AreasOk, IsClassSize, Area.Ok, Area.PosOf, Area.Classes, Keeps;
      SomePool();
      var i := 0;
      while i < |pools|
        invariant 0 <= i <= |pools| && Valid()
        invariant forall j :: 0 <= j < i ==> pools[j].area.max < s.Cap()
        invariant forall p :: p in pools ==> p.Buffers() == old(p.Buffers())
      {
        if s.Cap() <= pools[i].area.max {
          SizeReaches(i, s.Cap());
          OnlyClass(i, s.Cap());
          if s.Slice? && IsClassSize(pools[i].area, s.Cap()) { NotElsewhere(i, s); }
          var one := pools[i];
          assert one in pools;
          panics := one.ReleaseByteSlice(s);
          assert forall p :: p in pools && p != one ==> p.Buffers() == old(p.Buffers());
          assert one.Buffers() == old(one.Buffers()) + if s.Slice? then {s.buf} else {};
          return true, panics;
        }
        i := i + 1;
      }
      return false, false;
    }

    /** Only the area found for a capacity can have a class of that capacity. */
    lemma OnlyClass(i: nat, size: int)
      requires AreasOk(Areas()) && i < |pools| && size <= pools[i].area.max
      requires forall j :: 0 <= j < i ==> pools[j].area.max < size
      ensures Areas()[i] == pools[i].area && (Keeps(size) <==> IsClassSize(Areas()[i], size))
    {
      assert forall k :: 0 <= k < |pools| ==> Areas()[k] == pools[k].area;
      forall k | i < k < |pools| ensures Areas()[k].min > Areas()[i].max { AreasGrow(Areas(), i + 1, k); }
      if Keeps(size) {
        var k :| 0 <= k < |pools| && IsClassSize(Areas()[k], size);
        var pos: nat :| pos < Areas()[k].Classes() && Areas()[k].ClassSize(pos) == size;
        ClassPos(Areas()[k], pos);
        FullTop(Areas()[k]);
      }
    }
  }
}

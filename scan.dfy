/** The bounding-box walk of component assembly: the offsets of a template in
    the order of the three nested loops (x outermost, then y, then z), and the
    coordinates the walk recruits. */
module PatternScan {
  import opened StructureTypes
  import opened StructureRules

  /** Offsets (x, y, 0) .. (x, y, n-1): the innermost loop. */
  function Row(x: int, y: int, n: nat): seq<Pos>
  {
    if n == 0 then [] else Row(x, y, n - 1) + [Pos(x, y, n - 1)]
  }

  /** Rows y = 0 .. m-1 of the slab x, each `widthZ` long: the middle loop. */
  function Slab(x: int, m: nat, widthZ: nat): seq<Pos>
  {
    if m == 0 then [] else Slab(x, m - 1, widthZ) + Row(x, m - 1, widthZ)
  }

  /** Slabs x = 0 .. l-1: the outer loop. */
  function Box(l: nat, height: nat, widthZ: nat): seq<Pos>
  {
    if l == 0 then [] else Box(l - 1, height, widthZ) + Slab(l - 1, height, widthZ)
  }

  /** Every offset of a template's bounding box, in scan order. */
  function BoxOf(p: Pattern): seq<Pos>
  {
    Box(p.widthX, p.height, p.widthZ)
  }

  predicate InBox(o: Pos, p: Pattern)
  {
    0 <= o.x < p.widthX && 0 <= o.y < p.height && 0 <= o.z < p.widthZ
  }

  /** Scan order: x first, then y, then z. */
  predicate ScanBefore(a: Pos, b: Pos)
  {
    a.x < b.x || (a.x == b.x && (a.y < b.y || (a.y == b.y && a.z < b.z)))
  }

  predicate InScanOrder(s: seq<Pos>)
  {
    forall i, j :: 0 <= i < j < |s| ==> ScanBefore(s[i], s[j])
  }

  lemma RowSpec(x: int, y: int, n: nat)
    ensures forall o :: o in Row(x, y, n) <==> o.x == x && o.y == y && 0 <= o.z < n
    ensures InScanOrder(Row(x, y, n))
  {
    RowMembers(x, y, n);
    RowIndex(x, y, n);
  }

  lemma RowMembers(x: int, y: int, n: nat)
    ensures forall o :: o in Row(x, y, n) <==> o.x == x && o.y == y && 0 <= o.z < n
  {
    forall o: Pos
      ensures o in Row(x, y, n) <==> o.x == x && o.y == y && 0 <= o.z < n
    {
      RowMember(x, y, n, o);
    }
  }

  lemma RowMember(x: int, y: int, n: nat, o: Pos)
    ensures o in Row(x, y, n) <==> o.x == x && o.y == y && 0 <= o.z < n
  {
    RowIndex(x, y, n);
    if o.x == x && o.y == y && 0 <= o.z < n {
      assert Row(x, y, n)[o.z] == o;
    }
  }

  /** The k-th offset of a row is (x, y, k). */
  lemma {:induction false} RowIndex(x: int, y: int, n: nat)
    ensures |Row(x, y, n)| == n
    ensures forall k :: 0 <= k < n ==> Row(x, y, n)[k] == Pos(x, y, k)
  {
    if n > 0 {
      RowIndex(x, y, n - 1);
    }
  }

  /** Two runs in scan order, the first wholly before the second, make one. */
  lemma ConcatInScanOrder(a: seq<Pos>, b: seq<Pos>)
    requires InScanOrder(a) && InScanOrder(b)
    requires forall i, j :: 0 <= i < |a| && 0 <= j < |b| ==> ScanBefore(a[i], b[j])
    ensures InScanOrder(a + b)
  {
    forall i, j | 0 <= i < j < |a + b|
      ensures ScanBefore((a + b)[i], (a + b)[j])
    {
      if j < |a| {
        assert (a + b)[i] == a[i] && (a + b)[j] == a[j];
      } else if i >= |a| {
        assert (a + b)[i] == b[i - |a|] && (a + b)[j] == b[j - |a|];
      } else {
        assert (a + b)[i] == a[i] && (a + b)[j] == b[j - |a|];
      }
    }
  }

  lemma {:induction false} SlabSpec(x: int, m: nat, widthZ: nat)
    ensures forall o :: o in Slab(x, m, widthZ) <==> o.x == x && 0 <= o.y < m && 0 <= o.z < widthZ
    ensures InScanOrder(Slab(x, m, widthZ))
  {
    SlabMembers(x, m, widthZ);
    SlabOrder(x, m, widthZ);
  }

  lemma {:induction false} SlabMembers(x: int, m: nat, widthZ: nat)
    ensures forall o :: o in Slab(x, m, widthZ) <==> o.x == x && 0 <= o.y < m && 0 <= o.z < widthZ
  {
    forall o: Pos
      ensures o in Slab(x, m, widthZ) <==> o.x == x && 0 <= o.y < m && 0 <= o.z < widthZ
    {
      SlabMember(x, m, widthZ, o);
    }
  }

  lemma SlabMember(x: int, m: nat, widthZ: nat, o: Pos)
    ensures o in Slab(x, m, widthZ) <==> o.x == x && 0 <= o.y < m && 0 <= o.z < widthZ
  {
    if o in Slab(x, m, widthZ) {
      var k :| 0 <= k < |Slab(x, m, widthZ)| && Slab(x, m, widthZ)[k] == o;
      SlabAt(x, m, widthZ, k);
    }
    if o.x == x && 0 <= o.y < m && 0 <= o.z < widthZ {
      var k := SlabFind(x, m, widthZ, o);
    }
  }

  /** Every entry of a slab lies in it. */
  lemma {:induction false} SlabAt(x: int, m: nat, widthZ: nat, k: nat)
    requires k < |Slab(x, m, widthZ)|
    ensures var o := Slab(x, m, widthZ)[k]; o.x == x && 0 <= o.y < m && 0 <= o.z < widthZ
  {
    var a, b := Slab(x, m - 1, widthZ), Row(x, m - 1, widthZ);
    assert Slab(x, m, widthZ) == a + b;
    if k < |a| {
      assert Slab(x, m, widthZ)[k] == a[k];
      SlabAt(x, m - 1, widthZ, k);
    } else {
      assert Slab(x, m, widthZ)[k] == b[k - |a|];
      RowIndex(x, m - 1, widthZ);
    }
  }

  /** Every offset of a slab is at some index of it. */
  lemma {:induction false} SlabFind(x: int, m: nat, widthZ: nat, o: Pos) returns (k: nat)
    requires o.x == x && 0 <= o.y < m && 0 <= o.z < widthZ
    ensures k < |Slab(x, m, widthZ)| && Slab(x, m, widthZ)[k] == o
  {
    var a, b := Slab(x, m - 1, widthZ), Row(x, m - 1, widthZ);
    assert Slab(x, m, widthZ) == a + b;
    if o.y < m - 1 {
      k := SlabFind(x, m - 1, widthZ, o);
      assert (a + b)[k] == a[k];
    } else {
      RowIndex(x, m - 1, widthZ);
      k := |a| + o.z;
      assert (a + b)[k] == b[o.z];
    }
  }

  lemma {:induction false} SlabOrder(x: int, m: nat, widthZ: nat)
    ensures InScanOrder(Slab(x, m, widthZ))
  {
    if m > 0 {
      var a, b := Slab(x, m - 1, widthZ), Row(x, m - 1, widthZ);
      assert Slab(x, m, widthZ) == a + b;
      SlabOrder(x, m - 1, widthZ);
      RowSpec(x, m - 1, widthZ);
      SlabBeforeRow(x, m - 1, widthZ);
      ConcatInScanOrder(a, b);
    }
  }

  /** A slab's rows so far come wholly before its next row. */
  lemma SlabBeforeRow(x: int, m: nat, widthZ: nat)
    ensures forall i, j :: 0 <= i < |Slab(x, m, widthZ)| && 0 <= j < |Row(x, m, widthZ)| ==>
              ScanBefore(Slab(x, m, widthZ)[i], Row(x, m, widthZ)[j])
  {
    RowIndex(x, m, widthZ);
    forall i, j | 0 <= i < |Slab(x, m, widthZ)| && 0 <= j < |Row(x, m, widthZ)|
      ensures ScanBefore(Slab(x, m, widthZ)[i], Row(x, m, widthZ)[j])
    {
      SlabAt(x, m, widthZ, i);
    }
  }

  /** The walk visits exactly the offsets of the bounding box, each once, in
      scan order. */
  lemma {:induction false} BoxSpec(p: Pattern)
    ensures forall o :: o in BoxOf(p) <==> InBox(o, p)
    ensures InScanOrder(BoxOf(p))
  {
    BoxPrefixSpec(p.widthX, p.height, p.widthZ);
  }

  lemma {:induction false} BoxPrefixSpec(l: nat, height: nat, widthZ: nat)
    ensures forall o :: o in Box(l, height, widthZ) <==>
              0 <= o.x < l && 0 <= o.y < height && 0 <= o.z < widthZ
    ensures InScanOrder(Box(l, height, widthZ))
  {
    BoxMembers(l, height, widthZ);
    BoxOrder(l, height, widthZ);
  }

  lemma {:induction false} BoxMembers(l: nat, height: nat, widthZ: nat)
    ensures forall o :: o in Box(l, height, widthZ) <==>
              0 <= o.x < l && 0 <= o.y < height && 0 <= o.z < widthZ
  {
    forall o: Pos
      ensures o in Box(l, height, widthZ) <==> 0 <= o.x < l && 0 <= o.y < height && 0 <= o.z < widthZ
    {
      BoxMember(l, height, widthZ, o);
    }
  }

  lemma BoxMember(l: nat, height: nat, widthZ: nat, o: Pos)
    ensures o in Box(l, height, widthZ) <==> 0 <= o.x < l && 0 <= o.y < height && 0 <= o.z < widthZ
  {
    if o in Box(l, height, widthZ) {
      var k :| 0 <= k < |Box(l, height, widthZ)| && Box(l, height, widthZ)[k] == o;
      BoxAt(l, height, widthZ, k);
    }
    if 0 <= o.x < l && 0 <= o.y < height && 0 <= o.z < widthZ {
      var k := BoxFind(l, height, widthZ, o);
    }
  }

  /** Every entry of the walk lies in the box. */
  lemma {:induction false} BoxAt(l: nat, height: nat, widthZ: nat, k: nat)
    requires k < |Box(l, height, widthZ)|
    ensures var o := Box(l, height, widthZ)[k]; 0 <= o.x < l && 0 <= o.y < height && 0 <= o.z < widthZ
  {
    var a, b := Box(l - 1, height, widthZ), Slab(l - 1, height, widthZ);
    assert Box(l, height, widthZ) == a + b;
    if k < |a| {
      assert Box(l, height, widthZ)[k] == a[k];
      BoxAt(l - 1, height, widthZ, k);
    } else {
      assert Box(l, height, widthZ)[k] == b[k - |a|];
      SlabAt(l - 1, height, widthZ, k - |a|);
    }
  }

  /** Every offset of the box is at some index of the walk. */
  lemma {:induction false} BoxFind(l: nat, height: nat, widthZ: nat, o: Pos) returns (k: nat)
    requires 0 <= o.x < l && 0 <= o.y < height && 0 <= o.z < widthZ
    ensures k < |Box(l, height, widthZ)| && Box(l, height, widthZ)[k] == o
  {
    var a, b := Box(l - 1, height, widthZ), Slab(l - 1, height, widthZ);
    assert Box(l, height, widthZ) == a + b;
    if o.x < l - 1 {
      k := BoxFind(l - 1, height, widthZ, o);
      assert (a + b)[k] == a[k];
    } else {
      var j := SlabFind(l - 1, height, widthZ, o);
      k := |a| + j;
      assert (a + b)[k] == b[j];
    }
  }

  lemma {:induction false} BoxOrder(l: nat, height: nat, widthZ: nat)
    ensures InScanOrder(Box(l, height, widthZ))
  {
    if l > 0 {
      var a, b := Box(l - 1, height, widthZ), Slab(l - 1, height, widthZ);
      assert Box(l, height, widthZ) == a + b;
      BoxOrder(l - 1, height, widthZ);
      SlabOrder(l - 1, height, widthZ);
      BoxBeforeSlab(l - 1, height, widthZ);
      ConcatInScanOrder(a, b);
    }
  }

  /** The walk so far comes wholly before the next slab. */
  lemma BoxBeforeSlab(l: nat, height: nat, widthZ: nat)
    ensures forall i, j :: 0 <= i < |Box(l, height, widthZ)| && 0 <= j < |Slab(l, height, widthZ)| ==>
              ScanBefore(Box(l, height, widthZ)[i], Slab(l, height, widthZ)[j])
  {
    var a, b := Box(l, height, widthZ), Slab(l, height, widthZ);
    forall i, j | 0 <= i < |a| && 0 <= j < |b|
      ensures ScanBefore(a[i], b[j])
    {
      BoxAt(l, height, widthZ, i);
      SlabAt(l, height, widthZ, j);
    }
  }

  /** The coordinates assembly recruits, in walk order, when the template `p`
      is laid with its origin at `base` over the arena `w` by an engine of
      structure key `key`: every offset whose marker is not an other-block
      marker and whose coordinate holds an engine of the same key. */
  function Recruits(w: map<Pos, Engine>, key: string, p: Pattern, base: Pos, offs: seq<Pos>): seq<Pos>
  {
    if offs == [] then []
    else
      var o := offs[|offs| - 1];
      var q := Add(o, base);
      Recruits(w, key, p, base, offs[..|offs| - 1])
      + (if !IsMapPositionOtherBlock(p.marker(o)) && q in w && w[q].key == key then [q] else [])
  }

  lemma {:induction false} RecruitsSpec(w: map<Pos, Engine>, key: string, p: Pattern, base: Pos, offs: seq<Pos>)
    ensures forall q :: q in Recruits(w, key, p, base, offs) <==>
              Sub(q, base) in offs && !IsMapPositionOtherBlock(p.marker(Sub(q, base))) && q in w && w[q].key == key
    decreases |offs|
  {
    if offs != [] {
      var pre := offs[..|offs| - 1];
      RecruitsSpec(w, key, p, base, pre);
      assert offs == pre + [offs[|offs| - 1]];
    }
  }

  /** A coordinate is recruited exactly when its offset lies in the bounding
      box, its marker is not an other-block marker, and it holds an engine of
      the same structure key. */
  lemma RecruitedIff(w: map<Pos, Engine>, key: string, p: Pattern, base: Pos, q: Pos)
    ensures q in Recruits(w, key, p, base, BoxOf(p)) <==>
              InBox(Sub(q, base), p) && !IsMapPositionOtherBlock(p.marker(Sub(q, base)))
              && q in w && w[q].key == key
  {
    RecruitsSpec(w, key, p, base, BoxOf(p));
    BoxSpec(p);
  }

  /** Assembly lays the template so that the master offset falls on the
      discovering engine; when that offset is in the box and its marker is not
      an other-block marker, the discovering engine is recruited a second time. */
  lemma MasterRecruited(w: map<Pos, Engine>, key: string, p: Pattern, at: Pos)
    requires InBox(p.masterOffset, p) && !IsMapPositionOtherBlock(p.marker(p.masterOffset))
    requires at in w && w[at].key == key
    ensures at in Recruits(w, key, p, Sub(at, p.masterOffset), BoxOf(p))
  {
    RecruitedIff(w, key, p, Sub(at, p.masterOffset), at);
    assert Sub(at, Sub(at, p.masterOffset)) == p.masterOffset;
  }

  /** When every visited cell qualifies, the walk recruits every coordinate,
      in walk order. */
  lemma {:induction false} RecruitsAll(w: map<Pos, Engine>, key: string, p: Pattern, base: Pos, offs: seq<Pos>)
    requires forall o :: o in offs ==>
               !IsMapPositionOtherBlock(p.marker(o)) && Add(o, base) in w && w[Add(o, base)].key == key
    ensures Recruits(w, key, p, base, offs) == seq(|offs|, k requires 0 <= k < |offs| => Add(offs[k], base))
    decreases |offs|
  {
    if offs != [] {
      var pre := offs[..|offs| - 1];
      RecruitsAll(w, key, p, base, pre);
      assert offs[|offs| - 1] in offs;
    }
  }

  /** Recruitment depends only on which coordinates hold engines and on their keys. */
  lemma {:induction false} RecruitsFrame(w: map<Pos, Engine>, w': map<Pos, Engine>, key: string, p: Pattern, base: Pos, offs: seq<Pos>)
    requires w.Keys == w'.Keys
    requires forall q :: q in w ==> w[q].key == w'[q].key
    ensures Recruits(w, key, p, base, offs) == Recruits(w', key, p, base, offs)
    decreases |offs|
  {
    if offs != [] {
      RecruitsFrame(w, w', key, p, base, offs[..|offs| - 1]);
    }
  }
}

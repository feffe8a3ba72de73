/** A worked instance of master election: three engines of one key in a
    line along x, and a single template covering exactly that line, made of
    block cells, with its master offset in the middle. */
module StructureScenarios {
  import opened StructureTypes
  import opened StructureRules
  import opened Verdicts
  import opened PatternScan
  import opened StructureLogic

  /** A 3 x 1 x 1 template whose three cells are block cells. */
  predicate IsBlockLine(p: Pattern)
  {
    p.widthX == 3 && p.height == 1 && p.widthZ == 1
    && p.marker(Pos(0, 0, 0)) == 'B' && p.marker(Pos(1, 0, 0)) == 'B' && p.marker(Pos(2, 0, 0)) == 'B'
  }

  /** A block line whose master is its middle cell, with geometric master
      positions. */
  ghost predicate IsLine(p: Pattern)
  {
    IsBlockLine(p) && p.masterOffset == Pos(1, 0, 0) && Geometric(p)
  }

  /** The cell `i` steps along x from `base`. */
  function Along(base: Pos, i: int): Pos
  {
    Add(Pos(i, 0, 0), base)
  }

  /** An arena holding engines of structure key `key` at `base` and the two
      cells after it along x, whatever else it holds. */
  predicate HoldsLine(w: map<Pos, Engine>, key: string, base: Pos)
  {
    Along(base, 0) in w && Along(base, 1) in w && Along(base, 2) in w
    && w[Along(base, 0)].key == key && w[Along(base, 1)].key == key && w[Along(base, 2)].key == key
  }

  /** The walk over a line template visits its three cells in x order. */
  lemma LineBox(p: Pattern)
    requires p.widthX == 3 && p.height == 1 && p.widthZ == 1
    ensures BoxOf(p) == [Pos(0, 0, 0), Pos(1, 0, 0), Pos(2, 0, 0)]
  {
    assert Row(0, 0, 1) == [Pos(0, 0, 0)];
    assert Row(1, 0, 1) == [Pos(1, 0, 0)];
    assert Row(2, 0, 1) == [Pos(2, 0, 0)];
    assert Box(1, 1, 1) == [Pos(0, 0, 0)];
    assert Box(2, 1, 1) == [Pos(0, 0, 0), Pos(1, 0, 0)];
  }

  /** A walk over three offsets, each a qualifying cell over an engine of the
      same key, recruits the three coordinates in walk order. */
  lemma RecruitsThree(w: map<Pos, Engine>, key: string, p: Pattern, base: Pos, a: Pos, b: Pos, c: Pos)
    requires !IsMapPositionOtherBlock(p.marker(a)) && Add(a, base) in w && w[Add(a, base)].key == key
    requires !IsMapPositionOtherBlock(p.marker(b)) && Add(b, base) in w && w[Add(b, base)].key == key
    requires !IsMapPositionOtherBlock(p.marker(c)) && Add(c, base) in w && w[Add(c, base)].key == key
    ensures Recruits(w, key, p, base, [a, b, c]) == [Add(a, base), Add(b, base), Add(c, base)]
  {
    assert Recruits(w, key, p, base, [a]) == [Add(a, base)] by {
      RecruitsSnoc(w, key, p, base, [], a);
      assert [] + [a] == [a];
    }
    assert Recruits(w, key, p, base, [a, b]) == [Add(a, base), Add(b, base)] by {
      RecruitsSnoc(w, key, p, base, [a], b);
      assert [a] + [b] == [a, b];
    }
    RecruitsSnoc(w, key, p, base, [a, b], c);
    assert [a, b] + [c] == [a, b, c];
  }

  /** Laid with its origin on the first engine, a line template recruits all
      three engines, in x order. */
  lemma LineRecruits(w: map<Pos, Engine>, key: string, p: Pattern, base: Pos)
    requires HoldsLine(w, key, base) && IsBlockLine(p)
    ensures Recruits(w, key, p, base, BoxOf(p)) == [Along(base, 0), Along(base, 1), Along(base, 2)]
  {
    LineBox(p);
    RecruitsThree(w, key, p, base, Pos(0, 0, 0), Pos(1, 0, 0), Pos(2, 0, 0));
  }

  /** Testing the middle engine elects it: it becomes the valid master, both
      ends resolve to it, and, since the middle cell's marker is a block
      marker, the walk lists the master a second time, so the component list
      has four entries for three engines. */
  lemma LineElectsMiddle(w: map<Pos, Engine>, key: string, p: Pattern, matcher: Matcher, base: Pos)
    requires HoldsLine(w, key, base) && !w[Along(base, 1)].tileInvalid
    requires IsLine(p) && matcher(p, Along(base, 1)) == Matches
    ensures var r := MasterTest(map[key := [p]], w, Along(base, 1), matcher);
            IsValidMaster(r[Along(base, 1)]) && GetMasterLogic(r, Along(base, 1)) == Some(Along(base, 1))
    ensures var r := MasterTest(map[key := [p]], w, Along(base, 1), matcher);
            GetMasterLogic(r, Along(base, 0)) == Some(Along(base, 1))
            && GetMasterLogic(r, Along(base, 2)) == Some(Along(base, 1))
    ensures var r := MasterTest(map[key := [p]], w, Along(base, 1), matcher);
            r[Along(base, 1)].components == [Along(base, 1), Along(base, 0), Along(base, 1), Along(base, 2)]
  {
    var catalogs := map[key := [p]];
    var mid := Along(base, 1);
    var vs := TestResults(CatalogOf(catalogs, key), matcher, mid);
    assert vs == [Matches];
    assert FirstIndex(vs, Matches) == 0;
    assert Sub(mid, p.masterOffset) == base;
    LineRecruits(w, key, p, base);
    var recruits := [Along(base, 0), mid, Along(base, 2)];
    assert [mid] + recruits == [mid, Along(base, 0), mid, Along(base, 2)];
    var r := MasterTest(catalogs, w, mid, matcher);
    MasterTestElects(catalogs, w, mid, matcher);
    assert r[mid].components == [mid] + recruits;
    MasterTestConverges(catalogs, w, mid, matcher);
    assert Along(base, 0) in recruits && Along(base, 2) in recruits;
  }
}

/** The structure engine (StructureLogic) over an arena of engines keyed by
    grid coordinate. Every StructureLogic method that changes fields becomes a
    method of StructureWorld taking the coordinate `at` of the engine it runs
    on (the source's getPos()); a call on a neighbour engine is an update of
    that neighbour's entry. The read-only queries are functions of the arena. */
module StructureLogic {
  import opened StructureTypes
  import opened StructureRules
  import opened Verdicts
  import opened PatternScan
  import opened StructureCodec

  /** getMaxRecursionDepth: the hop budget of invalidation. */
  const MaxRecursionDepth: nat := 12

  /** MultiBlockPattern.testPattern for the engine at a coordinate: external
      and pure for a given grid. */
  type Matcher = (Pattern, Pos) -> Verdict

  /** The verdict of every template of `catalog`, in catalog order. */
  function TestResults(catalog: seq<Pattern>, matcher: Matcher, at: Pos): seq<Verdict>
  {
    seq(|catalog|, i requires 0 <= i < |catalog| => matcher(catalog[i], at))
  }

  /** getMasterLogic: the coordinate named by masterPos, accepted only when
      the engine found there confirms that it is a valid master. */
  function GetMasterLogic(w: map<Pos, Engine>, at: Pos): (r: Option<Pos>)
    requires at in w
    ensures r.Some? ==> w[at].masterPos == Some(r.value) && r.value in w && IsValidMaster(w[r.value])
    ensures r.None? <==> w[at].masterPos.None? || w[at].masterPos.value !in w
                         || !IsValidMaster(w[w[at].masterPos.value])
  {
    match w[at].masterPos
    case None => None
    case Some(m) => if m in w && IsValidMaster(w[m]) then Some(m) else None
  }

  /** getComponents: the master's component list, empty when no master resolves. */
  function GetComponents(w: map<Pos, Engine>, at: Pos): (r: seq<Pos>)
    requires at in w
    ensures GetMasterLogic(w, at).None? ==> r == []
    ensures GetMasterLogic(w, at).Some? ==> r == w[w[at].masterPos.value].components
  {
    match GetMasterLogic(w, at)
    case None => []
    case Some(m) => w[m].components
  }

  /** isStructureValid. */
  function IsStructureValid(w: map<Pos, Engine>, at: Pos): (r: bool)
    requires at in w
    ensures r <==> GetMasterLogic(w, at).Some?
    ensures !r ==> GetComponents(w, at) == []
  {
    GetMasterLogic(w, at).Some?
  }

  /** getPatternMarker: the marker of the engine's cell in its template, 'O'
      unless it holds a pattern and a position and its master resolves. */
  function GetPatternMarker(catalogs: map<string, seq<Pattern>>, w: map<Pos, Engine>, at: Pos): (r: char)
    requires at in w
    requires w[at].currentPattern.Some? ==> w[at].currentPattern.value < |CatalogOf(catalogs, w[at].key)|
    ensures w[at].currentPattern.None? || w[at].posInPattern.None? || !IsStructureValid(w, at) ==> r == 'O'
    ensures w[at].currentPattern.Some? && w[at].posInPattern.Some? && IsStructureValid(w, at) ==>
              r == CatalogOf(catalogs, w[at].key)[w[at].currentPattern.value].marker(w[at].posInPattern.value)
  {
    var e := w[at];
    if e.currentPattern.None? || e.posInPattern.None? || !IsStructureValid(w, at) then 'O'
    else CatalogOf(catalogs, e.key)[e.currentPattern.value].marker(e.posInPattern.value)
  }

  /** Members of a formed structure agree on its component list: a member
      whose master resolves sees the list the master itself sees, when the
      master's own pointer names itself. */
  lemma MembersShareComponents(w: map<Pos, Engine>, at: Pos)
    requires at in w && GetMasterLogic(w, at).Some?
    requires var m := GetMasterLogic(w, at).value; w[m].masterPos == Some(m)
    ensures var m := GetMasterLogic(w, at).value;
            GetMasterLogic(w, m) == Some(m) && GetComponents(w, at) == GetComponents(w, m) == w[m].components
  {
  }

  /** Geometric law of a template: the master coordinate is the engine's
      coordinate minus its offset plus the master offset. */
  ghost predicate Geometric(p: Pattern)
  {
    forall pos: Pos, off: Pos :: p.masterPosition(pos, off) == Add(Sub(pos, off), p.masterOffset)
  }

  /** The engines that still have to be reset before invalidation can no
      longer change anything. */
  ghost function PendingOf(w: map<Pos, Engine>): set<Pos>
  {
    set p | p in w && w[p].state != Untested
  }

  /** `after` differs from `before` only in states forced to UNTESTED. */
  ghost predicate OnlyResets(before: map<Pos, Engine>, after: map<Pos, Engine>)
  {
    after.Keys == before.Keys
    && forall q :: q in after ==> after[q] == before[q] || after[q] == before[q].(state := Untested)
  }

  /** No engine's master pointer resolves: invalidation cannot jump to a master. */
  ghost predicate NoMasterResolves(w: map<Pos, Engine>)
  {
    forall p :: p in w ==> GetMasterLogic(w, p).None?
  }

  lemma {:induction false} SubsetCard<T>(a: set<T>, b: set<T>)
    requires a <= b
    ensures |a| <= |b|
    decreases |b|
  {
    if a != {} {
      var x :| x in a;
      SubsetCard(a - {x}, b - {x});
    }
  }

  /** Resets never add pending engines, and never make a master resolve. */
  lemma ResetsShrink(before: map<Pos, Engine>, after: map<Pos, Engine>)
    requires OnlyResets(before, after)
    ensures PendingOf(after) <= PendingOf(before)
    ensures |PendingOf(after)| <= |PendingOf(before)|
    ensures NoMasterResolves(before) ==> NoMasterResolves(after)
  {
    SubsetCard(PendingOf(after), PendingOf(before));
    if NoMasterResolves(before) {
      forall p | p in after
        ensures GetMasterLogic(after, p).None?
      {
        assert GetMasterLogic(before, p).None?;
      }
    }
  }

  /** Forcing one pending engine to UNTESTED removes exactly it from the pending set. */
  lemma ResetOne(before: map<Pos, Engine>, n: Pos)
    requires n in before && before[n].state != Untested
    ensures var after := before[n := before[n].(state := Untested)];
            OnlyResets(before, after)
            && PendingOf(after) == PendingOf(before) - {n}
            && |PendingOf(after)| == |PendingOf(before)| - 1
            && (NoMasterResolves(before) ==> NoMasterResolves(after))
  {
    var after := before[n := before[n].(state := Untested)];
    assert PendingOf(after) == PendingOf(before) - {n};
    ResetsShrink(before, after);
  }

  lemma ResetKeepsUntested(before: map<Pos, Engine>, after: map<Pos, Engine>, n: Pos)
    requires OnlyResets(before, after) && n in before && before[n].state == Untested
    ensures n in after && after[n] == before[n]
  {
  }

  /** Every axis neighbour of `at` holding an engine of the same key is UNTESTED. */
  ghost predicate NeighboursReset(w: map<Pos, Engine>, at: Pos)
  {
    SidesReset(w, at, |Sides|)
  }

  /** The same, for the first `k` sides in EnumFacing order. */
  ghost predicate SidesReset(w: map<Pos, Engine>, at: Pos, k: nat)
  {
    at in w
    && forall j :: 0 <= j < k && j < |Sides| && Add(at, Sides[j]) in w && CanMatch(w[at], w[Add(at, Sides[j])]) ==>
         w[Add(at, Sides[j])].state == Untested
  }

  /** Marking side `k`, when it holds an engine of the same key, resets it;
      resets keep the sides before it reset. */
  lemma SidesResetStep(before: map<Pos, Engine>, after: map<Pos, Engine>, at: Pos, k: nat)
    requires k < |Sides| && OnlyResets(before, after) && SidesReset(before, at, k)
    requires var n := Add(at, Sides[k]);
             n in before && CanMatch(before[at], before[n]) ==> after[n].state == Untested
    ensures SidesReset(after, at, k + 1)
  {
    forall j | 0 <= j < k + 1 && Add(at, Sides[j]) in after && CanMatch(after[at], after[Add(at, Sides[j])])
      ensures after[Add(at, Sides[j])].state == Untested
    {
      assert CanMatch(before[at], before[Add(at, Sides[j])]);
    }
  }

  /** Later resets keep reset neighbours reset. */
  lemma ResetsKeepNeighbours(before: map<Pos, Engine>, after: map<Pos, Engine>, at: Pos)
    requires OnlyResets(before, after) && NeighboursReset(before, at)
    ensures NeighboursReset(after, at)
  {
    forall k | 0 <= k < |Sides| && Add(at, Sides[k]) in after && CanMatch(after[at], after[Add(at, Sides[k])])
      ensures after[Add(at, Sides[k])].state == Untested
    {
      assert CanMatch(before[at], before[Add(at, Sides[k])]);
    }
  }

  /** Resets keep every pattern index in its catalog and every VALID engine
      assigned, since they touch neither the pattern nor the key, and leave
      no engine VALID that was not. */
  lemma ResetsKeepInvariants(catalogs: map<string, seq<Pattern>>, before: map<Pos, Engine>, after: map<Pos, Engine>)
    requires OnlyResets(before, after)
    ensures PatternsFit(catalogs, before) ==> PatternsFit(catalogs, after)
    ensures ValidAssigned(before) ==> ValidAssigned(after)
  {
  }

  lemma ResetsCompose(a: map<Pos, Engine>, b: map<Pos, Engine>, c: map<Pos, Engine>)
    requires OnlyResets(a, b) && OnlyResets(b, c)
    ensures OnlyResets(a, c)
  {
  }

  lemma Triangle(a: Pos, b: Pos, c: Pos)
    ensures Dist(a, c) <= Dist(a, b) + Dist(b, c)
  {
  }

  /** Every engine that differs between `before` and `after` lies within
      `bound` hops of `center`. */
  ghost predicate ChangedWithin(before: map<Pos, Engine>, after: map<Pos, Engine>, center: Pos, bound: int)
    requires after.Keys <= before.Keys
  {
    forall q :: q in after && after[q] != before[q] ==> Dist(q, center) <= bound
  }

  /** Every engine that differs between `before` and `after` has structure key `key`. */
  ghost predicate ChangedKey(before: map<Pos, Engine>, after: map<Pos, Engine>, key: string)
    requires after.Keys <= before.Keys
  {
    forall q :: q in after && after[q] != before[q] ==> before[q].key == key
  }

  lemma WithinCompose(a: map<Pos, Engine>, b: map<Pos, Engine>, c: map<Pos, Engine>, center: Pos, bound: int)
    requires b.Keys == a.Keys && c.Keys == a.Keys
    requires ChangedWithin(a, b, center, bound) && ChangedWithin(b, c, center, bound)
    ensures ChangedWithin(a, c, center, bound)
  {
  }

  /** Resets keep every key, so two key-confined steps compose. */
  lemma KeyCompose(a: map<Pos, Engine>, b: map<Pos, Engine>, c: map<Pos, Engine>, key: string)
    requires OnlyResets(a, b) && OnlyResets(b, c)
    requires ChangedKey(a, b, key) && ChangedKey(b, c, key)
    ensures ChangedKey(a, c, key)
  {
    forall q | q in c && c[q] != a[q]
      ensures a[q].key == key
    {
      assert b[q].key == a[q].key;
    }
  }

  /** A change within `bound` hops of a neighbour is within `bound + 1` hops. */
  lemma WithinNeighbour(a: map<Pos, Engine>, b: map<Pos, Engine>, n: Pos, at: Pos, bound: int)
    requires b.Keys <= a.Keys && ChangedWithin(a, b, n, bound) && Dist(n, at) <= 1
    ensures ChangedWithin(a, b, at, bound + 1)
  {
    forall q | q in b && b[q] != a[q]
      ensures Dist(q, at) <= bound + 1
    {
      Triangle(q, n, at);
    }
  }

  /** The three steps of markChange on a pending engine `n` compose: the
      reset of `n`, the master's invalidation (skipped when no master
      resolves), and the spread to the neighbours with `d` hops left. */
  lemma MarkChain(before: map<Pos, Engine>, reset: map<Pos, Engine>, mid: map<Pos, Engine>, after: map<Pos, Engine>,
                  n: Pos, d: nat)
    requires n in before && before[n].state != Untested
    requires reset == before[n := before[n].(state := Untested)]
    requires GetMasterLogic(reset, n).None? ==> mid == reset
    requires OnlyResets(reset, mid) && OnlyResets(mid, after)
    requires n in mid && (NoMasterResolves(mid) ==> ChangedWithin(mid, after, n, d) && ChangedKey(mid, after, mid[n].key))
    ensures OnlyResets(before, after)
    ensures n in after && after[n].state == Untested
    ensures NoMasterResolves(before) ==> ChangedWithin(before, after, n, d) && ChangedKey(before, after, before[n].key)
  {
    ResetOne(before, n);
    ResetsCompose(before, reset, mid);
    ResetsCompose(before, mid, after);
    ResetKeepsUntested(reset, mid, n);
    ResetKeepsUntested(mid, after, n);
    if NoMasterResolves(before) {
      assert mid == reset;
      assert ChangedWithin(before, mid, n, d);
      WithinCompose(before, mid, after, n, d);
      assert ChangedKey(before, mid, before[n].key);
      KeyCompose(before, mid, after, before[n].key);
    }
  }

  /** The arena after the engines at `qs`, in order, were each assigned the
      template `i` of `catalog` at their offset from `base`. */
  function Assign(w: map<Pos, Engine>, catalog: seq<Pattern>, i: nat, base: Pos, qs: seq<Pos>): (r: map<Pos, Engine>)
    requires i < |catalog|
    ensures r.Keys == w.Keys
    decreases |qs|
  {
    if qs == [] then w
    else
      var r' := Assign(w, catalog, i, base, qs[..|qs| - 1]);
      var q := qs[|qs| - 1];
      if q in r' then r'[q := SetPattern(r'[q], q, catalog, Some(i), Some(Sub(q, base)))] else r'
  }

  /** Assigning a template changes no engine's structure key. */
  lemma {:induction false} AssignKey(w: map<Pos, Engine>, catalog: seq<Pattern>, i: nat, base: Pos, qs: seq<Pos>, q: Pos)
    requires i < |catalog| && q in w
    ensures Assign(w, catalog, i, base, qs)[q].key == w[q].key
    decreases |qs|
  {
    if qs != [] {
      AssignKey(w, catalog, i, base, qs[..|qs| - 1], q);
    }
  }

  /** An engine listed once or more holds the assignment of its offset; the
      others are untouched. */
  lemma {:induction false} AssignSpec(w: map<Pos, Engine>, catalog: seq<Pattern>, i: nat, base: Pos, qs: seq<Pos>, q: Pos)
    requires i < |catalog| && q in w
    ensures Assign(w, catalog, i, base, qs)[q]
            == if q in qs then SetPattern(w[q], q, catalog, Some(i), Some(Sub(q, base))) else w[q]
    decreases |qs|
  {
    if qs != [] {
      var pre := qs[..|qs| - 1];
      AssignSpec(w, catalog, i, base, pre, q);
      assert qs == pre + [qs[|qs| - 1]];
      if qs[|qs| - 1] == q && q in pre {
        SetPatternIdempotent(w[q], q, catalog, Some(i), Some(Sub(q, base)));
      }
    }
  }

  /** The arena after assembly, engine by engine: the master is as it was
      when the walk began, every recruit holds the assignment of its offset
      and has the master's key, every other engine is untouched. */
  lemma AssignArena(w0: map<Pos, Engine>, w1: map<Pos, Engine>, at: Pos, key: string, p: Pattern,
                    catalog: seq<Pattern>, i: nat, base: Pos)
    requires i < |catalog| && at in w1
    requires w1.Keys == w0.Keys && forall q :: q in w1 && q != at ==> w1[q] == w0[q]
    requires SetPattern(w1[at], at, catalog, Some(i), Some(Sub(at, base))) == w1[at]
    ensures var r := Recruits(w0, key, p, base, BoxOf(p));
            var w := Assign(w1, catalog, i, base, r);
            w[at] == w1[at]
            && forall q :: q in w0 && q != at ==>
                 w[q] == (if q in r then SetPattern(w0[q], q, catalog, Some(i), Some(Sub(q, base))) else w0[q])
                 && (q in r ==> w0[q].key == key)
  {
    var r := Recruits(w0, key, p, base, BoxOf(p));
    AssignSpec(w1, catalog, i, base, r, at);
    RecruitsSpec(w0, key, p, base, BoxOf(p));
    forall q | q in w0 && q != at
      ensures Assign(w1, catalog, i, base, r)[q]
              == (if q in r then SetPattern(w0[q], q, catalog, Some(i), Some(Sub(q, base))) else w0[q])
    {
      AssignSpec(w1, catalog, i, base, r, q);
    }
  }

  function CatalogOf(catalogs: map<string, seq<Pattern>>, key: string): seq<Pattern>
  {
    if key in catalogs then catalogs[key] else []
  }

  ghost predicate PatternsFit(catalogs: map<string, seq<Pattern>>, w: map<Pos, Engine>)
  {
    forall q :: q in w && w[q].currentPattern.Some? ==> w[q].currentPattern.value < |CatalogOf(catalogs, w[q].key)|
  }

  /** Assembly keeps every pattern index inside its engine's catalog: the
      master and the recruits, all of the master's key, get an index of that
      key's catalog, and the others are untouched. */
  lemma AssemblyKeepsFit(catalogs: map<string, seq<Pattern>>, w0: map<Pos, Engine>, w: map<Pos, Engine>, at: Pos,
                         key: string, i: nat, base: Pos, r: seq<Pos>)
    requires i < |CatalogOf(catalogs, key)| && PatternsFit(catalogs, w0)
    requires w.Keys == w0.Keys && at in w && w[at].key == key && w[at].currentPattern == Some(i)
    requires forall q :: q in w0 && q != at ==>
               w[q] == (if q in r then SetPattern(w0[q], q, CatalogOf(catalogs, key), Some(i), Some(Sub(q, base))) else w0[q])
               && (q in r ==> w0[q].key == key)
    ensures PatternsFit(catalogs, w)
  {
  }

  ghost predicate ValidAssigned(w: map<Pos, Engine>)
  {
    forall q :: q in w && w[q].state == Valid ==> w[q].masterPos.Some? && w[q].posInPattern.Some?
  }

  /** Assembly keeps every VALID engine assigned: the master is assigned by
      setPattern, every recruit too, and the others are untouched. */
  lemma AssemblyKeepsAssigned(w0: map<Pos, Engine>, w: map<Pos, Engine>, at: Pos, catalog: seq<Pattern>, i: nat,
                              base: Pos, r: seq<Pos>)
    requires i < |catalog| && ValidAssigned(w0)
    requires w.Keys == w0.Keys && at in w && w[at].masterPos.Some? && w[at].posInPattern.Some?
    requires forall q :: q in w0 && q != at ==>
               w[q] == (if q in r then SetPattern(w0[q], q, catalog, Some(i), Some(Sub(q, base))) else w0[q])
    ensures ValidAssigned(w)
  {
  }

  /** One more offset of the walk recruits its coordinate exactly when the
      marker allows it and the coordinate holds an engine of the same key. */
  lemma RecruitsSnoc(w: map<Pos, Engine>, key: string, p: Pattern, base: Pos, offs: seq<Pos>, o: Pos)
    ensures Recruits(w, key, p, base, offs + [o])
            == Recruits(w, key, p, base, offs)
               + (if !IsMapPositionOtherBlock(p.marker(o)) && Add(o, base) in w && w[Add(o, base)].key == key
                  then [Add(o, base)] else [])
  {
    assert (offs + [o])[..|offs|] == offs;
  }

  /** One step of the walk keeps the list of components equal to [at]
      followed by the recruits so far. */
  lemma RecruitStep(w0: map<Pos, Engine>, w1: map<Pos, Engine>, w: map<Pos, Engine>, key: string, p: Pattern,
                    catalog: seq<Pattern>, i: nat, base: Pos, at: Pos, comps: seq<Pos>, offs: seq<Pos>, offset: Pos)
    requires i < |catalog|
    requires w1.Keys == w0.Keys && forall q :: q in w1 ==> w1[q].key == w0[q].key
    requires comps == [at] + Recruits(w0, key, p, base, offs)
    requires w == Assign(w1, catalog, i, base, comps[1..])
    ensures var pos := Add(offset, base);
            var take := !IsMapPositionOtherBlock(p.marker(offset)) && pos in w && w[pos].key == key;
            (if take then comps + [pos] else comps) == [at] + Recruits(w0, key, p, base, offs + [offset])
  {
    var pos := Add(offset, base);
    var before := Recruits(w0, key, p, base, offs);
    var take0 := !IsMapPositionOtherBlock(p.marker(offset)) && pos in w0 && w0[pos].key == key;
    assert take0 <==> !IsMapPositionOtherBlock(p.marker(offset)) && pos in w && w[pos].key == key by {
      if pos in w {
        AssignKey(w1, catalog, i, base, comps[1..], pos);
      }
    }
    RecruitsSnoc(w0, key, p, base, offs, offset);
    if take0 {
      assert comps + [pos] == [at] + (before + [pos]);
    } else {
      assert before + [] == before;
    }
  }

  /** Recruiting one more engine extends the assignment by one. */
  lemma AssignStep(w1: map<Pos, Engine>, w: map<Pos, Engine>, catalog: seq<Pattern>, i: nat, base: Pos,
                   comps: seq<Pos>, offset: Pos)
    requires i < |catalog| && |comps| >= 1
    requires w == Assign(w1, catalog, i, base, comps[1..])
    requires Add(offset, base) in w
    ensures var pos := Add(offset, base);
            w[pos := SetPattern(w[pos], pos, catalog, Some(i), Some(offset))]
            == Assign(w1, catalog, i, base, (comps + [pos])[1..])
  {
    var pos := Add(offset, base);
    var qs := (comps + [pos])[1..];
    assert qs[..|qs| - 1] == comps[1..] && qs[|qs| - 1] == pos;
    assert Sub(pos, base) == offset;
  }

  lemma AppendEmpty(prefix: seq<Pos>)
    ensures forall x, y :: prefix + Row(x, y, 0) == prefix
    ensures forall x, w :: prefix + Slab(x, 0, w) == prefix
  {
  }

  lemma SlabStep(prefix: seq<Pos>, x: int, y: nat, widthZ: nat)
    ensures (prefix + Slab(x, y, widthZ)) + Row(x, y, widthZ) == prefix + Slab(x, y + 1, widthZ)
  {
  }

  lemma RowStep(prefix: seq<Pos>, x: int, y: int, z: nat)
    ensures prefix + Row(x, y, z + 1) == (prefix + Row(x, y, z)) + [Pos(x, y, z)]
  {
  }

  /** The middle loop of the walk: the rows y = 0 .. height-1 of the slab px. */
  method RecruitSlab(w: map<Pos, Engine>, comps: seq<Pos>, at: Pos, key: string, p: Pattern, catalog: seq<Pattern>,
                     i: nat, base: Pos, px: nat, ghost w0: map<Pos, Engine>, ghost w1: map<Pos, Engine>)
    returns (w': map<Pos, Engine>, comps': seq<Pos>)
    requires i < |catalog|
    requires w1.Keys == w0.Keys && forall q :: q in w1 ==> w1[q].key == w0[q].key
    requires comps == [at] + Recruits(w0, key, p, base, Box(px, p.height, p.widthZ))
    requires w == Assign(w1, catalog, i, base, comps[1..])
    ensures comps' == [at] + Recruits(w0, key, p, base, Box(px + 1, p.height, p.widthZ))
    ensures w' == Assign(w1, catalog, i, base, comps'[1..])
  {
    w', comps' := w, comps;
    var py := 0;
    ghost var slabs := Box(px, p.height, p.widthZ);
    AppendEmpty(slabs);
    while py < p.height
      invariant 0 <= py <= p.height
      invariant comps' == [at] + Recruits(w0, key, p, base, slabs + Slab(px, py, p.widthZ))
      invariant w' == Assign(w1, catalog, i, base, comps'[1..])
    {
      w', comps' := RecruitRow(w', comps', at, key, p, catalog, i, base, px, py, w0, w1, slabs + Slab(px, py, p.widthZ));
      SlabStep(slabs, px, py, p.widthZ);
      py := py + 1;
    }
  }

  /** The innermost loop of the walk: the row (px, py, 0) .. (px, py, widthZ-1). */
  method RecruitRow(w: map<Pos, Engine>, comps: seq<Pos>, at: Pos, key: string, p: Pattern, catalog: seq<Pattern>,
                    i: nat, base: Pos, px: int, py: int, ghost w0: map<Pos, Engine>, ghost w1: map<Pos, Engine>,
                    ghost prefix: seq<Pos>)
    returns (w': map<Pos, Engine>, comps': seq<Pos>)
    requires i < |catalog|
    requires w1.Keys == w0.Keys && forall q :: q in w1 ==> w1[q].key == w0[q].key
    requires comps == [at] + Recruits(w0, key, p, base, prefix)
    requires w == Assign(w1, catalog, i, base, comps[1..])
    ensures comps' == [at] + Recruits(w0, key, p, base, prefix + Row(px, py, p.widthZ))
    ensures w' == Assign(w1, catalog, i, base, comps'[1..])
  {
    w', comps' := w, comps;
    var pz := 0;
    AppendEmpty(prefix);
    while pz < p.widthZ
      invariant 0 <= pz <= p.widthZ
      invariant comps' == [at] + Recruits(w0, key, p, base, prefix + Row(px, py, pz))
      invariant w' == Assign(w1, catalog, i, base, comps'[1..])
    {
      var offset := Pos(px, py, pz);
      var pos := Add(offset, base);
      RecruitStep(w0, w1, w', key, p, catalog, i, base, at, comps', prefix + Row(px, py, pz), offset);
      RowStep(prefix, px, py, pz);
      if !IsMapPositionOtherBlock(p.marker(offset)) && pos in w' && w'[pos].key == key {
        AssignStep(w1, w', catalog, i, base, comps', offset);
        w' := w'[pos := SetPattern(w'[pos], pos, catalog, Some(i), Some(offset))];
        comps' := comps' + [pos];
      }
      pz := pz + 1;
    }
  }

  /** The arena after testIfMasterBlock on the engine at `at`: the verdict
      table is recorded; on a VALID verdict the engine claims the master role
      with the first VALID template, placed so that its master offset falls on
      `at`, and every engine of its key under the template's bounding box
      (other-block markers excepted) is assigned the template, in walk order;
      otherwise the engine becomes UNKNOWN when some region was not loaded and
      INVALID, giving up any master claim, when all templates failed. */
  function MasterTest(catalogs: map<string, seq<Pattern>>, w: map<Pos, Engine>, at: Pos, matcher: Matcher)
    : (r: map<Pos, Engine>)
    requires at in w
    ensures r.Keys == w.Keys
  {
    var e0 := w[at];
    var catalog := CatalogOf(catalogs, e0.key);
    var vs := TestResults(catalog, matcher, at);
    var e := e0.(patternStates := VerdictTable(vs));
    VerdictTableSpec(vs, Matches);
    if Matches in e.patternStates then
      var i := e.patternStates[Matches][0];
      var p := catalog[i];
      var master := SetPattern(e.(state := Valid, isMaster := true), at, catalog, Some(i), Some(p.masterOffset));
      var base := Sub(at, p.masterOffset);
      var recruits := Recruits(w, e0.key, p, base, BoxOf(p));
      var assembled := Assign(w[at := master], catalog, i, base, recruits);
      assembled[at := assembled[at].(components := [at] + recruits)]
    else if NotLoaded in e.patternStates then
      w[at := e.(state := Unknown, components := [at])]
    else
      w[at := e.(state := Invalid, isMaster := false, components := [at])]
  }

  /** The tested engine keeps its identity and records the verdict of every
      template; it ends VALID exactly when some template matched, UNKNOWN
      exactly when none matched and some region was not loaded, INVALID
      otherwise. When no template matched, nothing but its state, its table,
      its component list and (INVALID) its master claim changes. */
  lemma MasterTestSelf(catalogs: map<string, seq<Pattern>>, w: map<Pos, Engine>, at: Pos, matcher: Matcher)
    requires at in w
    ensures var e0, e := w[at], MasterTest(catalogs, w, at, matcher)[at];
            var vs := TestResults(CatalogOf(catalogs, e0.key), matcher, at);
            e.key == e0.key && e.tileInvalid == e0.tileInvalid && e.requestPacket == e0.requestPacket
            && e.patternStates == VerdictTable(vs)
            && (e.state == Valid <==> Matches in vs)
            && (e.state == Unknown <==> Matches !in vs && NotLoaded in vs)
            && (e.state == Invalid <==> Matches !in vs && NotLoaded !in vs)
    ensures var e0 := w[at];
            var vs := TestResults(CatalogOf(catalogs, e0.key), matcher, at);
            Matches !in vs && NotLoaded in vs ==>
              MasterTest(catalogs, w, at, matcher)
              == w[at := e0.(state := Unknown, patternStates := VerdictTable(vs), components := [at])]
    ensures var e0 := w[at];
            var vs := TestResults(CatalogOf(catalogs, e0.key), matcher, at);
            Matches !in vs && NotLoaded !in vs ==>
              MasterTest(catalogs, w, at, matcher)
              == w[at := e0.(state := Invalid, isMaster := false, patternStates := VerdictTable(vs), components := [at])]
  {
    var vs := TestResults(CatalogOf(catalogs, w[at].key), matcher, at);
    VerdictTableSpec(vs, Matches);
    VerdictTableSpec(vs, NotLoaded);
    if Matches in vs {
      MasterTestMaster(catalogs, w, at, matcher);
    }
  }

  /** The master's own entry after a VALID verdict. */
  lemma MasterTestMaster(catalogs: map<string, seq<Pattern>>, w: map<Pos, Engine>, at: Pos, matcher: Matcher)
    requires at in w
    requires Matches in TestResults(CatalogOf(catalogs, w[at].key), matcher, at)
    ensures var e0, e := w[at], MasterTest(catalogs, w, at, matcher)[at];
            var catalog := CatalogOf(catalogs, e0.key);
            var vs := TestResults(catalog, matcher, at);
            var i := FirstIndex(vs, Matches);
            var p := catalog[i];
            e == SetPattern(e0.(patternStates := VerdictTable(vs), state := Valid, isMaster := true),
                            at, catalog, Some(i), Some(p.masterOffset))
                 .(components := [at] + Recruits(w, e0.key, p, Sub(at, p.masterOffset), BoxOf(p)))
  {
    var e0 := w[at];
    var catalog := CatalogOf(catalogs, e0.key);
    var vs := TestResults(catalog, matcher, at);
    VerdictTableSpec(vs, Matches);
    var i := FirstIndex(vs, Matches);
    var p := catalog[i];
    var base := Sub(at, p.masterOffset);
    var e := e0.(patternStates := VerdictTable(vs)).(state := Valid, isMaster := true);
    assert Sub(at, base) == p.masterOffset;
    SetPatternIdempotent(e, at, catalog, Some(i), Some(p.masterOffset));
    var master := SetPattern(e, at, catalog, Some(i), Some(p.masterOffset));
    AssignSpec(w[at := master], catalog, i, base, Recruits(w, e0.key, p, base, BoxOf(p)), at);
  }

  /** On a VALID verdict the engine becomes the master with the first VALID
      template in catalog order, placed so that the template's master offset
      falls on the engine; its component list is itself followed by every
      recruit in walk order; each recruit holds the template and its offset
      in it, and every other engine is untouched. */
  lemma MasterTestElects(catalogs: map<string, seq<Pattern>>, w: map<Pos, Engine>, at: Pos, matcher: Matcher)
    requires at in w
    ensures var e0, r := w[at], MasterTest(catalogs, w, at, matcher);
            var catalog := CatalogOf(catalogs, e0.key);
            var vs := TestResults(catalog, matcher, at);
            Matches in vs ==>
              var i := FirstIndex(vs, Matches);
              var p := catalog[i];
              var base := Sub(at, p.masterOffset);
              var recruits := Recruits(w, e0.key, p, base, BoxOf(p));
              r[at].state == Valid && r[at].isMaster
              && r[at].currentPattern == Some(i) && r[at].posInPattern == Some(p.masterOffset)
              && r[at].masterPos == Some(p.masterPosition(at, p.masterOffset))
              && r[at].components == [at] + recruits
              && forall q :: q in w && q != at ==>
                   r[q] == if q in recruits
                           then SetPattern(w[q], q, catalog, Some(i), Some(Sub(q, base)))
                           else w[q]
  {
    var e0 := w[at];
    var catalog := CatalogOf(catalogs, e0.key);
    var vs := TestResults(catalog, matcher, at);
    VerdictTableSpec(vs, Matches);
    if Matches in vs {
      var i := FirstIndex(vs, Matches);
      var p := catalog[i];
      var base := Sub(at, p.masterOffset);
      var e := e0.(patternStates := VerdictTable(vs)).(state := Valid, isMaster := true);
      assert Sub(at, base) == p.masterOffset;
      SetPatternIdempotent(e, at, catalog, Some(i), Some(p.masterOffset));
      var master := SetPattern(e, at, catalog, Some(i), Some(p.masterOffset));
      AssignArena(w, w[at := master], at, e0.key, p, catalog, i, base);
    }
  }

  /** testIfMasterBlock keeps every pattern index inside its engine's catalog. */
  lemma MasterTestKeepsFit(catalogs: map<string, seq<Pattern>>, w: map<Pos, Engine>, at: Pos, matcher: Matcher)
    requires at in w && PatternsFit(catalogs, w)
    ensures PatternsFit(catalogs, MasterTest(catalogs, w, at, matcher))
  {
    var e0 := w[at];
    var catalog := CatalogOf(catalogs, e0.key);
    var vs := TestResults(catalog, matcher, at);
    var r := MasterTest(catalogs, w, at, matcher);
    MasterTestSelf(catalogs, w, at, matcher);
    if Matches in vs {
      MasterTestElects(catalogs, w, at, matcher);
      var i := FirstIndex(vs, Matches);
      var p := catalog[i];
      var base := Sub(at, p.masterOffset);
      var recruits := Recruits(w, e0.key, p, base, BoxOf(p));
      RecruitsSpec(w, e0.key, p, base, BoxOf(p));
      AssemblyKeepsFit(catalogs, w, r, at, e0.key, i, base, recruits);
    } else {
      assert r[at].currentPattern == e0.currentPattern;
      forall q | q in r && r[q].currentPattern.Some?
        ensures r[q].currentPattern.value < |CatalogOf(catalogs, r[q].key)|
      {
        if q != at {
          assert r[q] == w[q];
        }
      }
    }
  }

  /** testIfMasterBlock keeps every VALID engine assigned a master coordinate
      and a position in its pattern. */
  lemma MasterTestKeepsAssigned(catalogs: map<string, seq<Pattern>>, w: map<Pos, Engine>, at: Pos, matcher: Matcher)
    requires at in w && ValidAssigned(w)
    ensures ValidAssigned(MasterTest(catalogs, w, at, matcher))
  {
    var e0 := w[at];
    var catalog := CatalogOf(catalogs, e0.key);
    var vs := TestResults(catalog, matcher, at);
    VerdictTableSpec(vs, Matches);
    if Matches in vs {
      MasterTestElects(catalogs, w, at, matcher);
      var i := FirstIndex(vs, Matches);
      var p := catalog[i];
      var base := Sub(at, p.masterOffset);
      AssemblyKeepsAssigned(w, MasterTest(catalogs, w, at, matcher), at, catalog, i, base,
                            Recruits(w, e0.key, p, base, BoxOf(p)));
    }
  }

  /** With a template whose master coordinate follows the geometric law,
      assembly converges: the master resolves to itself, every recruit
      resolves to the master without any message, and all of them see the
      master's component list. */
  lemma MasterTestConverges(catalogs: map<string, seq<Pattern>>, w: map<Pos, Engine>, at: Pos, matcher: Matcher)
    requires at in w && !w[at].tileInvalid
    requires var vs := TestResults(CatalogOf(catalogs, w[at].key), matcher, at);
             Matches in vs && Geometric(CatalogOf(catalogs, w[at].key)[FirstIndex(vs, Matches)])
    ensures var catalog := CatalogOf(catalogs, w[at].key);
            var p := catalog[FirstIndex(TestResults(catalog, matcher, at), Matches)];
            var recruits := Recruits(w, w[at].key, p, Sub(at, p.masterOffset), BoxOf(p));
            var r := MasterTest(catalogs, w, at, matcher);
            GetMasterLogic(r, at) == Some(at)
            && forall q :: q in recruits ==>
                 q in r && GetMasterLogic(r, q) == Some(at) && GetComponents(r, q) == [at] + recruits
  {
    var e0 := w[at];
    var catalog := CatalogOf(catalogs, e0.key);
    var vs := TestResults(catalog, matcher, at);
    var i := FirstIndex(vs, Matches);
    var p := catalog[i];
    var base := Sub(at, p.masterOffset);
    var recruits := Recruits(w, e0.key, p, base, BoxOf(p));
    var r := MasterTest(catalogs, w, at, matcher);
    assert r[at].tileInvalid == e0.tileInvalid by {
      MasterTestSelf(catalogs, w, at, matcher);
    }
    MasterTestElects(catalogs, w, at, matcher);
    assert r[at].masterPos == Some(at) by {
      assert Add(Sub(at, p.masterOffset), p.masterOffset) == at;
    }
    assert forall q :: q in recruits ==> q in w by {
      RecruitsSpec(w, e0.key, p, base, BoxOf(p));
    }
    AssemblyConverges(w, r, at, catalog, i, base, recruits);
  }

  /** Every recruit of a geometric template points at the master. */
  lemma AssemblyConverges(w0: map<Pos, Engine>, r: map<Pos, Engine>, at: Pos, catalog: seq<Pattern>, i: nat,
                          base: Pos, recruits: seq<Pos>)
    requires i < |catalog| && Geometric(catalog[i]) && base == Sub(at, catalog[i].masterOffset)
    requires r.Keys == w0.Keys && at in r && r[at].masterPos == Some(at) && IsValidMaster(r[at])
    requires forall q :: q in recruits ==> q in w0
    requires forall q :: q in w0 && q != at ==>
               r[q] == (if q in recruits then SetPattern(w0[q], q, catalog, Some(i), Some(Sub(q, base))) else w0[q])
    ensures GetMasterLogic(r, at) == Some(at)
    ensures forall q :: q in recruits ==>
              q in r && GetMasterLogic(r, q) == Some(at) && GetComponents(r, q) == r[at].components
  {
    forall q | q in recruits
      ensures q in r && GetMasterLogic(r, q) == Some(at)
    {
      if q != at {
        assert Add(Sub(q, Sub(q, base)), catalog[i].masterOffset) == at;
      }
    }
  }

  class StructureWorld {
    /** The template catalog of each structure key. */
    const catalogs: map<string, seq<Pattern>>
    /** The engine of every coordinate that holds one. */
    var engines: map<Pos, Engine>

    /** A world whose coordinates in `keys` each hold a freshly created
        engine of the given structure key. */
    constructor (catalogs: map<string, seq<Pattern>>, keys: map<Pos, string>)
      ensures this.catalogs == catalogs
      ensures engines.Keys == keys.Keys && forall q :: q in keys ==> engines[q] == NewEngine(keys[q], q)
      ensures Wf() && ValidIsAssigned()
    {
      this.catalogs := catalogs;
      this.engines := map q | q in keys :: NewEngine(keys[q], q);
    }

    /** A tile placed at `at` brings a freshly created engine. */
    method Place(at: Pos, key: string)
      requires at !in engines && Wf()
      modifies this
      ensures engines == old(engines)[at := NewEngine(key, at)]
      ensures Wf() && (old(ValidIsAssigned()) ==> ValidIsAssigned())
    {
      engines := engines[at := NewEngine(key, at)];
    }

    function Catalog(key: string): seq<Pattern>
    {
      CatalogOf(catalogs, key)
    }

    /** Every engine's pattern index points into its own catalog. */
    ghost predicate Wf()
      reads this
    {
      PatternsFit(catalogs, engines)
    }

    /** A VALID engine has a master coordinate and a position in its pattern. */
    ghost predicate ValidIsAssigned()
      reads this
    {
      ValidAssigned(engines)
    }

    /** testPatterns: clear the verdict table, then record the verdict of
        every template in catalog order. */
    method TestPatterns(at: Pos, matcher: Matcher)
      requires at in engines
      modifies this
      ensures engines == old(engines)[at := old(engines)[at].(patternStates :=
                VerdictTable(TestResults(Catalog(old(engines)[at].key), matcher, at)))]
    {
      var catalog := Catalog(engines[at].key);
      ghost var vs := TestResults(catalog, matcher, at);
      var table: map<Verdict, seq<nat>> := map[];
      assert VerdictTable(vs[..0]) == map[];
      for i := 0 to |catalog|
        invariant engines == old(engines)
        invariant table == VerdictTable(vs[..i])
      {
        var v := matcher(catalog[i], at);
        assert vs[..i + 1] == vs[..i] + [v];
        VerdictTablePut(vs[..i], v);
        table := Put(table, v, i);
      }
      assert vs[..|catalog|] == vs;
      engines := engines[at := engines[at].(patternStates := table)];
    }

    /** testIfMasterBlock, proved against MasterTest. */
    method TestIfMasterBlock(at: Pos, matcher: Matcher)
      requires at in engines && Wf()
      modifies this
      ensures engines == MasterTest(catalogs, old(engines), at, matcher)
      ensures Wf()
      ensures old(ValidIsAssigned()) ==> ValidIsAssigned()
    {
      ghost var w0 := engines;
      TestPatterns(at, matcher);
      var e := engines[at];
      var catalog := Catalog(e.key);
      ghost var vs := TestResults(catalog, matcher, at);
      ghost var tested := w0[at].(patternStates := VerdictTable(vs));
      assert e == tested;
      VerdictTableSpec(vs, Matches);
      if Matches in e.patternStates {
        var i := e.patternStates[Matches][0];
        var p := catalog[i];
        e := SetPattern(e.(state := Valid, isMaster := true), at, catalog, Some(i), Some(p.masterOffset));
        engines := engines[at := e];
        assert engines == w0[at := e];
        var base := Sub(at, p.masterOffset);
        var comps := RecruitComponents(at, catalog, i, base, w0);
        engines := engines[at := engines[at].(components := comps)];
      } else if NotLoaded in e.patternStates {
        engines := engines[at := e.(state := Unknown, components := [at])];
        assert engines == w0[at := tested.(state := Unknown, components := [at])];
      } else {
        engines := engines[at := e.(state := Invalid, isMaster := false, components := [at])];
        assert engines == w0[at := tested.(state := Invalid, isMaster := false, components := [at])];
      }
      assert engines == MasterTest(catalogs, w0, at, matcher);
      assert Wf() by {
        MasterTestKeepsFit(catalogs, w0, at, matcher);
      }
      assert ValidAssigned(w0) ==> ValidIsAssigned() by {
        if ValidAssigned(w0) {
          MasterTestKeepsAssigned(catalogs, w0, at, matcher);
        }
      }
    }

    /** The bounding-box walk of testIfMasterBlock: for every offset of the
        template, in the order of the three nested loops, whose marker is not
        an other-block marker and whose coordinate holds an engine of the
        master's key, assign that engine (template, offset) and append it to
        the list that starts as [at]. `w0` is the arena before testing, which
        differs from the current one only in the master's own fields. */
    method RecruitComponents(at: Pos, catalog: seq<Pattern>, i: nat, base: Pos, ghost w0: map<Pos, Engine>)
      returns (comps: seq<Pos>)
      requires at in engines && catalog == Catalog(engines[at].key) && i < |catalog|
      requires engines.Keys == w0.Keys && forall q :: q in engines ==> engines[q].key == w0[q].key
      modifies this
      ensures var recruits := Recruits(w0, old(engines)[at].key, catalog[i], base, BoxOf(catalog[i]));
              comps == [at] + recruits && engines == Assign(old(engines), catalog, i, base, recruits)
    {
      var key := engines[at].key;
      var p := catalog[i];
      ghost var w1 := engines;
      var w := engines;
      comps := [at];
      var px := 0;
      while px < p.widthX
        invariant 0 <= px <= p.widthX
        invariant comps == [at] + Recruits(w0, key, p, base, Box(px, p.height, p.widthZ))
        invariant w == Assign(w1, catalog, i, base, comps[1..])
      {
        w, comps := RecruitSlab(w, comps, at, key, p, catalog, i, base, px, w0, w1);
        px := px + 1;
      }
      assert comps[1..] == Recruits(w0, key, p, base, BoxOf(p));
      engines := w;
    }

    /** updateServer: only an UNTESTED engine re-tests, and afterwards it is
        no longer UNTESTED. */
    method UpdateServer(at: Pos, matcher: Matcher)
      requires at in engines && Wf()
      modifies this
      ensures Wf() && engines.Keys == old(engines).Keys
      ensures old(engines)[at].state != Untested ==> engines == old(engines)
      ensures old(engines)[at].state == Untested ==>
                engines == MasterTest(catalogs, old(engines), at, matcher) && engines[at].state != Untested
    {
      if engines[at].state == Untested {
        ghost var w0 := engines;
        TestIfMasterBlock(at, matcher);
        MasterTestSelf(catalogs, w0, at, matcher);
      }
    }

    /** onBlockChange: invalidate the six neighbours with the full budget. */
    method OnBlockChange(at: Pos)
      requires at in engines && Wf()
      modifies this
      decreases |PendingOf(engines)|, MaxRecursionDepth, 2
      ensures OnlyResets(old(engines), engines) && NeighboursReset(engines, at)
      ensures old(NoMasterResolves(engines)) ==>
                ChangedWithin(old(engines), engines, at, MaxRecursionDepth) && ChangedKey(old(engines), engines, old(engines)[at].key)
      ensures Wf() && (old(ValidIsAssigned()) ==> ValidIsAssigned())
    {
      SpreadChange(at, MaxRecursionDepth);
    }

    /** spreadChange: mark every axis neighbour holding an engine of the same
        key, in EnumFacing order. */
    method SpreadChange(at: Pos, depth: nat)
      requires at in engines && Wf()
      modifies this
      decreases |PendingOf(engines)|, depth, 1
      ensures OnlyResets(old(engines), engines)
      ensures depth > 0 ==> NeighboursReset(engines, at)
      ensures old(NoMasterResolves(engines)) ==>
                ChangedWithin(old(engines), engines, at, depth) && ChangedKey(old(engines), engines, old(engines)[at].key)
      ensures depth == 0 ==> engines == old(engines)
      ensures Wf() && (old(ValidIsAssigned()) ==> ValidIsAssigned())
    {
      for k := 0 to |Sides|
        invariant OnlyResets(old(engines), engines) && Wf()
        invariant |PendingOf(engines)| <= old(|PendingOf(engines)|)
        invariant depth > 0 ==> SidesReset(engines, at, k)
        invariant depth == 0 ==> engines == old(engines)
        invariant old(NoMasterResolves(engines)) ==>
                    NoMasterResolves(engines) && ChangedWithin(old(engines), engines, at, depth)
                    && ChangedKey(old(engines), engines, old(engines)[at].key)
      {
        ghost var before := engines;
        var n := Add(at, Sides[k]);
        if n in engines && CanMatch(engines[at], engines[n]) {
          MarkChange(n, depth);
          ResetsShrink(before, engines);
          ResetsCompose(old(engines), before, engines);
          if old(NoMasterResolves(engines)) {
            assert ChangedWithin(old(engines), engines, at, depth) by {
              assert Dist(n, at) <= 1;
              WithinNeighbour(before, engines, n, at, depth - 1);
              WithinCompose(old(engines), before, engines, at, depth);
            }
            assert ChangedKey(old(engines), engines, old(engines)[at].key) by {
              KeyCompose(old(engines), before, engines, old(engines)[at].key);
            }
          }
        }
        if depth > 0 {
          SidesResetStep(before, engines, at, k);
        }
      }
      ResetsKeepInvariants(catalogs, old(engines), engines);
    }

    /** markChange: with budget left and not yet UNTESTED, the engine becomes
        UNTESTED, its resolved master is invalidated with a fresh budget, and
        the neighbours are marked with one hop less. */
    method MarkChange(n: Pos, depth: nat)
      requires n in engines && Wf()
      modifies this
      decreases |PendingOf(engines)|, depth, 0
      ensures OnlyResets(old(engines), engines)
      ensures depth == 0 || old(engines)[n].state == Untested ==> engines == old(engines)
      ensures depth > 0 ==> engines[n].state == Untested
      ensures depth > 1 && old(engines)[n].state != Untested ==> NeighboursReset(engines, n)
      ensures depth > 0 && old(engines)[n].state != Untested && old(GetMasterLogic(engines, n)).Some?
              && old(GetMasterLogic(engines, n)).value != n ==>
                NeighboursReset(engines, old(GetMasterLogic(engines, n)).value)
      ensures old(NoMasterResolves(engines)) ==>
                ChangedWithin(old(engines), engines, n, depth - 1) && ChangedKey(old(engines), engines, old(engines)[n].key)
      ensures Wf() && (old(ValidIsAssigned()) ==> ValidIsAssigned())
    {
      if depth == 0 {
        return;
      }
      var d := depth - 1;
      if engines[n].state != Untested {
        ghost var before := engines;
        ResetOne(before, n);
        engines := engines[n := engines[n].(state := Untested)];
        ResetsKeepInvariants(catalogs, before, engines);
        ghost var reset := engines;
        var master := GetMasterLogic(engines, n);
        ghost var old_master := GetMasterLogic(before, n);
        assert old_master.Some? && old_master.value != n ==> master == old_master;
        if master.Some? {
          OnBlockChange(master.value);
        }
        ghost var mid := engines;
        ResetsShrink(reset, mid);
        SpreadChange(n, d);
        MarkChain(before, reset, mid, engines, n, d);
        if master.Some? {
          ResetsKeepNeighbours(mid, engines, master.value);
        }
        ResetsKeepInvariants(catalogs, before, engines);
      }
    }

    /** scheduleMasterRetest on the server: the resolved master, if any,
        becomes UNTESTED, so that it is tested again on its next update and,
        until then, no longer resolves as a master. */
    method ScheduleMasterRetest(at: Pos)
      requires at in engines && Wf()
      modifies this
      ensures var m := old(GetMasterLogic(engines, at));
              engines == if m.Some? then old(engines)[m.value := old(engines)[m.value].(state := Untested)]
                         else old(engines)
      ensures OnlyResets(old(engines), engines) && GetMasterLogic(engines, at).None?
      ensures Wf() && (old(ValidIsAssigned()) ==> ValidIsAssigned())
    {
      var master := GetMasterLogic(engines, at);
      if master.Some? {
        engines := engines[master.value := engines[master.value].(state := Untested)];
      }
      ResetsKeepInvariants(catalogs, old(engines), engines);
    }

    /** readPacketData on an observer: the state, then for VALID the clamped
        pattern index and the position, which assign the pattern and set the
        master claim from the template; any other state clears the master
        claim and the pattern, leaving INVALID. A stream that ends early
        leaves what was read so far. Returns the payload for the base class
        and the delegate. */
    method ReadPacketData(at: Pos, fields: seq<Field>) returns (r: Result<seq<Field>>)
      requires at in engines && Wf()
      modifies this
      ensures Wf()
      ensures at in engines && engines == old(engines)[at := engines[at]]
      ensures var e0, e := old(engines)[at], engines[at];
              var catalog := Catalog(e0.key);
              match ReadPacket(fields, |catalog|)
              case Ok(Replica(s, None, rest)) =>
                r == Ok(rest)
                && e == e0.(state := Invalid, isMaster := false, masterPos := None,
                            currentPattern := None, posInPattern := None, requestPacket := false)
              case Ok(Replica(_, Some(Slot(i, pos)), rest)) =>
                r == Ok(rest) && i < |catalog|
                && e == e0.(state := Valid, isMaster := catalog[i].isMasterPosition(pos),
                            masterPos := Some(catalog[i].masterPosition(at, pos)),
                            currentPattern := Some(i), posInPattern := Some(pos),
                            requestPacket := GetMasterLogic(engines, at).None?)
              case Err(f) =>
                r == Err(f)
                && e == e0.(state := if |fields| > 0 && fields[0].StateField? then fields[0].state else e0.state,
                            requestPacket := false)
    {
      var e := engines[at].(requestPacket := false);
      var catalog := Catalog(e.key);
      if |fields| == 0 || !fields[0].StateField? {
        r := Err(Truncated);
      } else {
        e := e.(state := fields[0].state);
        if e.state == Valid {
          if |fields| < 2 || !fields[1].ByteField? {
            r := Err(Truncated);
          } else {
            var index := Clamp(fields[1].b, 0, |catalog| - 1);
            if !(0 <= index < |catalog|) {
              r := Err(IndexOutOfBounds);
            } else if |fields| < 3 || !fields[2].PosField? {
              r := Err(Truncated);
            } else {
              var pos := fields[2].pos;
              e := SetPattern(e, at, catalog, Some(index), Some(pos));
              e := e.(isMaster := catalog[index].isMasterPosition(pos));
              if GetMasterLogic(engines[at := e], at).None? {
                e := e.(requestPacket := true);
              }
              r := Ok(fields[3..]);
            }
          }
        } else {
          e := e.(isMaster := false);
          e := SetPattern(e, at, catalog, None, None);
          r := Ok(fields[1..]);
        }
      }
      engines := engines[at := e];
    }

    /** readFromNBT: restore the master claim and the pattern index; a failed
        catalog lookup is swallowed. Nothing else is restored. */
    method ReadFromNbt(at: Pos, c: Compound)
      requires at in engines && Wf()
      modifies this
      ensures Wf()
      ensures var e0 := old(engines)[at];
              engines == old(engines)[at := e0.(isMaster := GetBoolean(c, "master"),
                currentPattern := PatternFromNbt(c, |Catalog(e0.key)|, e0.currentPattern))]
    {
      var e := engines[at];
      e := e.(isMaster := GetBoolean(c, "master"));
      e := e.(currentPattern := PatternFromNbt(c, |Catalog(e.key)|, e.currentPattern));
      engines := engines[at := e];
    }
  }
}

/** The verdict table (patternStates): a multimap from a verdict to the
    templates that produced it, kept in catalog order. Templates are named by
    their catalog position. */
module Verdicts {
  import opened StructureTypes

  const AllVerdicts: set<Verdict> := {Matches, Mismatch, NotLoaded}

  /** The catalog positions, in catalog order, whose verdict in `vs` is `v`. */
  function IndicesWith(vs: seq<Verdict>, v: Verdict): seq<nat>
    decreases |vs|
  {
    if vs == [] then []
    else IndicesWith(vs[..|vs| - 1], v) + (if vs[|vs| - 1] == v then [|vs| - 1] else [])
  }

  /** The multimap's put: template `i` joins the end of the list of verdict `v`. */
  function Put(table: map<Verdict, seq<nat>>, v: Verdict, i: nat): (r: map<Verdict, seq<nat>>)
    ensures r.Keys == table.Keys + {v}
    ensures r[v] == (if v in table then table[v] else []) + [i]
    ensures forall u :: u in table && u != v ==> r[u] == table[u]
  {
    table[v := (if v in table then table[v] else []) + [i]]
  }

  /** The table after templates 0 .. |vs|-1 were tested with verdicts `vs`:
      a verdict is a key exactly when some template produced it. */
  function VerdictTable(vs: seq<Verdict>): map<Verdict, seq<nat>>
  {
    map v | v in AllVerdicts && IndicesWith(vs, v) != [] :: IndicesWith(vs, v)
  }

  /** The least catalog position whose verdict is `v`. */
  function FirstIndex(vs: seq<Verdict>, v: Verdict): (r: nat)
    requires v in vs
    ensures r < |vs| && vs[r] == v && v !in vs[..r]
  {
    if vs[0] == v then 0
    else
      var r' := FirstIndex(vs[1..], v);
      assert vs[..1 + r'] == [vs[0]] + vs[1..][..r'];
      1 + r'
  }

  /** IndicesWith lists, in increasing order, exactly the positions holding `v`. */
  lemma {:induction false} IndicesWithSpec(vs: seq<Verdict>, v: Verdict)
    ensures forall k :: 0 <= k < |IndicesWith(vs, v)| ==>
              IndicesWith(vs, v)[k] < |vs| && vs[IndicesWith(vs, v)[k]] == v
    ensures forall i :: 0 <= i < |vs| && vs[i] == v ==> i in IndicesWith(vs, v)
    ensures forall k, l :: 0 <= k < l < |IndicesWith(vs, v)| ==>
              IndicesWith(vs, v)[k] < IndicesWith(vs, v)[l]
    decreases |vs|
  {
    if vs != [] {
      var pre := vs[..|vs| - 1];
      IndicesWithSpec(pre, v);
      assert IndicesWith(vs, v) == IndicesWith(pre, v) + (if vs[|vs| - 1] == v then [|vs| - 1] else []);
      assert forall i :: 0 <= i < |pre| ==> pre[i] == vs[i];
    }
  }

  /** Testing one more template extends the table by a single put. */
  lemma VerdictTablePut(vs: seq<Verdict>, v: Verdict)
    ensures VerdictTable(vs + [v]) == Put(VerdictTable(vs), v, |vs|)
  {
    var t, t' := VerdictTable(vs + [v]), Put(VerdictTable(vs), v, |vs|);
    forall u | u in AllVerdicts
      ensures (u in t <==> u in t') && (u in t ==> t[u] == t'[u])
    {
      IndicesWithSnoc(vs, v, u);
    }
    assert v in AllVerdicts;
    assert t.Keys == t'.Keys;
  }

  /** One more verdict adds its position to its own list only. */
  lemma IndicesWithSnoc(vs: seq<Verdict>, v: Verdict, u: Verdict)
    ensures IndicesWith(vs + [v], u) == IndicesWith(vs, u) + (if u == v then [|vs|] else [])
  {
    assert (vs + [v])[..|vs|] == vs;
  }

  /** The first template listed under `v` is the first in catalog order with verdict `v`. */
  lemma FirstIndexIsHead(vs: seq<Verdict>, v: Verdict)
    requires v in vs
    ensures IndicesWith(vs, v) != [] && IndicesWith(vs, v)[0] == FirstIndex(vs, v)
  {
    IndicesWithSpec(vs, v);
    var f := FirstIndex(vs, v);
    var l := IndicesWith(vs, v);
    assert f in l;
    var k :| 0 <= k < |l| && l[k] == f;
    assert l[0] <= f;
    assert forall j :: 0 <= j < f ==> vs[..f][j] == vs[j];
    assert l[0] >= f;
  }

  /** What the table records: a verdict is a key exactly when some template
      produced it, its first template is the first such in catalog order, every
      template is listed under its own verdict, and under no other. */
  lemma VerdictTableSpec(vs: seq<Verdict>, v: Verdict)
    ensures v in VerdictTable(vs) <==> v in vs
    ensures v in vs ==> VerdictTable(vs)[v][0] == FirstIndex(vs, v)
    ensures forall i :: 0 <= i < |vs| ==> vs[i] in VerdictTable(vs) && i in VerdictTable(vs)[vs[i]]
    ensures v in VerdictTable(vs) ==> forall i :: i in VerdictTable(vs)[v] ==> i < |vs| && vs[i] == v
  {
    IndicesWithSpec(vs, v);
    assert v in AllVerdicts;
    if IndicesWith(vs, v) != [] {
      assert vs[IndicesWith(vs, v)[0]] == v;
    }
    if v in vs {
      FirstIndexIsHead(vs, v);
    }
    forall i | 0 <= i < |vs|
      ensures vs[i] in VerdictTable(vs) && i in VerdictTable(vs)[vs[i]]
    {
      IndicesWithSpec(vs, vs[i]);
      assert vs[i] in AllVerdicts;
    }
  }
}

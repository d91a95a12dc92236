/**
  Aspect detection (`is_aspect` and `find_aspect` of utils.py) over the aspect
  reference table.
*/
module Aspects {
  import opened Wrappers
  import opened SwissEph

  /** One record of the aspect table: id, display symbol, exact angle and orb. */
  datatype AspectDef = AspectDef(id: int, name: string, symbol: string, angle: real, orb: real)

  /** Dictionary keys are unique. */
  predicate UniqueIds(t: seq<AspectDef>)
  {
    forall a, b | 0 <= a < b < |t| :: t[a].id != t[b].id
  }

  /** The aspect table in its dictionary order (the order of the data file). */
  type AspectTable = t: seq<AspectDef> | UniqueIds(t)

  /** The id under which the trine is stored in the aspect table. */
  const TrineId := 2

  /**
    `is_aspect(angle1, angle2, id)` for the looked-up aspect: the separation
    lies within the orb of the exact angle, inclusive at both ends.
  */
  predicate IsAspect(lon1: real, lon2: real, a: AspectDef): (b: bool)
    ensures a.orb < 0.0 ==> !b
    ensures b ==> a.angle - a.orb <= 180.0 && 0.0 <= a.angle + a.orb
    ensures a.angle - a.orb <= 0.0 && 180.0 <= a.angle + a.orb ==> b
    ensures lon1 == lon2 ==> (b <==> a.angle - a.orb <= 0.0 <= a.angle + a.orb)
  {
    a.angle - a.orb <= Separation(lon1, lon2) <= a.angle + a.orb
  }

  /** Aspect detection does not depend on the order of the two bodies. */
  lemma IsAspectSymmetric(lon1: real, lon2: real, a: AspectDef)
    ensures IsAspect(lon1, lon2, a) <==> IsAspect(lon2, lon1, a)
  {
    DifDeg2nSwap(lon1, lon2);
  }

  /**
    Looking an aspect up by id (`st.session_state.aspects[id]`): the first
    record with that id, or None when the id is missing.
  */
  function AspectById(t: seq<AspectDef>, id: int): (r: Option<AspectDef>)
    ensures r.None? <==> forall k | 0 <= k < |t| :: t[k].id != id
    ensures r.Some? ==> r.value in t && r.value.id == id
  {
    if |t| == 0 then None
    else if t[0].id == id then Some(t[0])
    else AspectById(t[1..], id)
  }

  /** With unique ids, looking up a record's id gives that record back. */
  lemma {:induction false} AspectByIdOfEntry(t: AspectTable, k: int)
    requires 0 <= k < |t|
    ensures AspectById(t, t[k].id) == Some(t[k])
  {
    if k > 0 {
      assert t[0].id != t[k].id;
      var rest: AspectTable := t[1..];
      AspectByIdOfEntry(rest, k - 1);
    }
  }

  /**
    `find_aspect(lon1, lon2)`: the id of the first aspect in table order that
    holds between the two longitudes, or None when none does. When orbs
    overlap, the earlier aspect wins.
  */
  function FindAspect(lon1: real, lon2: real, t: seq<AspectDef>): (r: Option<int>)
    ensures r.None? <==> forall k | 0 <= k < |t| :: !IsAspect(lon1, lon2, t[k])
    ensures r.Some? ==> exists k | 0 <= k < |t| ::
              t[k].id == r.value && IsAspect(lon1, lon2, t[k])
              && forall e | 0 <= e < k :: !IsAspect(lon1, lon2, t[e])
  {
    if |t| == 0 then None
    else if IsAspect(lon1, lon2, t[0]) then Some(t[0].id)
    else
      var r := FindAspect(lon1, lon2, t[1..]);
      assert r.Some? ==> exists k | 0 <= k < |t| ::
              t[k].id == r.value && IsAspect(lon1, lon2, t[k])
              && forall e | 0 <= e < k :: !IsAspect(lon1, lon2, t[e]) by {
        if r.Some? {
          var k :| 0 <= k < |t| - 1 && t[1..][k].id == r.value && IsAspect(lon1, lon2, t[1..][k])
                   && forall e | 0 <= e < k :: !IsAspect(lon1, lon2, t[1..][e]);
          assert t[k + 1] == t[1..][k];
          forall e | 0 <= e < k + 1 ensures !IsAspect(lon1, lon2, t[e]) {
            if e > 0 { assert t[e] == t[1..][e - 1]; }
          }
        }
      }
      r
  }

  /** Which aspect is found does not depend on the order of the two bodies. */
  lemma {:induction false} FindAspectSymmetric(lon1: real, lon2: real, t: seq<AspectDef>)
    ensures FindAspect(lon1, lon2, t) == FindAspect(lon2, lon1, t)
  {
    if |t| > 0 {
      IsAspectSymmetric(lon1, lon2, t[0]);
      FindAspectSymmetric(lon1, lon2, t[1..]);
    }
  }

  /**
    The boundary cases of an inclusive 120-degree aspect with an 8-degree orb:
    112 and 128 degrees of separation count, 111.9 and 128.1 do not.
  */
  lemma TrineOrbBoundaries()
    ensures var trine := AspectDef(TrineId, "Trine", "", 120.0, 8.0);
            IsAspect(0.0, 112.0, trine) && !IsAspect(0.0, 111.9, trine)
            && IsAspect(0.0, 128.0, trine) && !IsAspect(0.0, 128.1, trine)
  {
    assert DegNorm(-112.0) == 248.0;
    assert DegNorm(-111.9) == 248.1;
    assert DegNorm(-128.0) == 232.0;
    assert DegNorm(-128.1) == 231.9;
  }
}

/**
  The Great Trine finder (pages/2_Great_Trine.py): date-range validation, the
  per-day search for three planets mutually in inTrine, and the collapse of the
  resulting row stream into periods.
*/
module GreatTrine {
  import opened Wrappers
  import opened SwissEph
  import opened Zodiac
  import opened Aspects
  import opened Positions
  import opened TimeConversion

  /**
    `get_trine_element(sign1, sign2, sign3)`: the element the three signs
    share, or "Dissociate" when they do not all share one.
  */
  function TrineElement(signs: SignTable, s1: Sign, s2: Sign, s3: Sign): (e: string)
    ensures signs[s1].element == signs[s2].element == signs[s3].element ==> e == signs[s1].element
    ensures !(signs[s1].element == signs[s2].element == signs[s3].element) ==> e == "Dissociate"
  {
    var e1, e2, e3 := signs[s1].element, signs[s2].element, signs[s3].element;
    if e1 == e2 == e3 then e1 else "Dissociate"
  }

  /** The element of a trine does not depend on the order its signs are listed in. */
  lemma TrineElementPermutation(signs: SignTable, s1: Sign, s2: Sign, s3: Sign)
    ensures TrineElement(signs, s1, s2, s3) == TrineElement(signs, s2, s1, s3)
    ensures TrineElement(signs, s1, s2, s3) == TrineElement(signs, s1, s3, s2)
    ensures TrineElement(signs, s1, s2, s3) == TrineElement(signs, s3, s2, s1)
  {
  }

  // Date-range validation

  /** The two warnings that stop a scan. */
  datatype RangeError = EndNotAfterStart | RangeLongerThanAYear

  /**
    The checks of pages/2_Great_Trine.py:31-35 on dates given as day numbers:
    the end must come after the start, and at most 366 days after it.
  */
  function CheckRange(startDay: int, endDay: int): (r: Result<(), RangeError>)
    ensures r.Success? <==> startDay < endDay <= startDay + 366
    ensures r == Failure(EndNotAfterStart) <==> endDay <= startDay
  {
    if endDay <= startDay then Failure(EndNotAfterStart)
    else if endDay > startDay + 366 then Failure(RangeLongerThanAYear)
    else Success(())
  }

  // The per-day search

  /** Positions of three planets in one day's group. */
  datatype Triple = Triple(i: nat, j: nat, k: nat)

  /** Lexicographic order of triples: the order the nested loops visit them. */
  predicate LexLess(a: Triple, b: Triple)
  {
    a.i < b.i || (a.i == b.i && (a.j < b.j || (a.j == b.j && a.k < b.k)))
  }

  predicate StrictlySorted(ts: seq<Triple>)
  {
    forall a, b | 0 <= a < b < |ts| :: LexLess(ts[a], ts[b])
  }

  /** Three distinct planets of the day, in order, each pair in trine. */
  predicate Qualifies(day: seq<PositionRow>, inTrine: (real, real) -> bool, t: Triple)
  {
    && t.i < t.j < t.k < |day|
    && inTrine(day[t.i].longitude, day[t.j].longitude)
    && inTrine(day[t.j].longitude, day[t.k].longitude)
    && inTrine(day[t.i].longitude, day[t.k].longitude)
  }

  /** The qualifying triples (i, j, k') with j < k' < k, for i and j in trine, in the order the k loop finds them. */
  function KUpTo(day: seq<PositionRow>, inTrine: (real, real) -> bool, i: nat, j: nat, k: nat): (r: seq<Triple>)
    requires i < j < |day| && j < k <= |day|
    requires inTrine(day[i].longitude, day[j].longitude)
    ensures forall t | t in r :: t.i == i && t.j == j && j < t.k < k
    ensures ValidTriples(day, r)
    decreases k
  {
    if k == j + 1 then []
    else
      KUpTo(day, inTrine, i, j, k - 1)
      + (if inTrine(day[j].longitude, day[k - 1].longitude)
            && inTrine(day[i].longitude, day[k - 1].longitude)
         then [Triple(i, j, k - 1)] else [])
  }

  /** Qualifying triples (i, j', k) with j' from `j` on. */
  function JRun(day: seq<PositionRow>, inTrine: (real, real) -> bool, i: nat, j: nat): (r: seq<Triple>)
    requires i < j
    ensures forall t | t in r :: t.i == i && j <= t.j < t.k < |day|
    decreases |day| - j
  {
    if j >= |day| then []
    else
      (if inTrine(day[i].longitude, day[j].longitude) then KUpTo(day, inTrine, i, j, |day|) else [])
      + JRun(day, inTrine, i, j + 1)
  }

  /** Qualifying triples whose first planet is at `i` or later. */
  function IRun(day: seq<PositionRow>, inTrine: (real, real) -> bool, i: nat): (r: seq<Triple>)
    ensures forall t | t in r :: i <= t.i < t.j < t.k < |day|
    decreases |day| - i
  {
    if i >= |day| then [] else JRun(day, inTrine, i, i + 1) + IRun(day, inTrine, i + 1)
  }

  /** All qualifying triples of a day, in the order the nested loops find them. */
  function TrinesOf(day: seq<PositionRow>, inTrine: (real, real) -> bool): (r: seq<Triple>)
    ensures forall t | t in r :: Qualifies(day, inTrine, t)
    ensures StrictlySorted(r)
  {
    IRunSound(day, inTrine, 0);
    IRunSorted(day, inTrine, 0);
    IRun(day, inTrine, 0)
  }

  lemma SortedConcat(x: seq<Triple>, y: seq<Triple>)
    requires StrictlySorted(x) && StrictlySorted(y)
    requires forall a, b | a in x && b in y :: LexLess(a, b)
    ensures StrictlySorted(x + y)
  {
    forall a, b | 0 <= a < b < |x + y| ensures LexLess((x + y)[a], (x + y)[b]) {
      if b < |x| {
      } else if a >= |x| {
        assert (x + y)[a] == y[a - |x|] && (x + y)[b] == y[b - |x|];
      } else {
        assert (x + y)[a] in x && (x + y)[b] in y;
      }
    }
  }

  lemma {:induction false} KUpToSorted(day: seq<PositionRow>, inTrine: (real, real) -> bool, i: nat, j: nat, k: nat)
    requires i < j < |day| && j < k <= |day|
    requires inTrine(day[i].longitude, day[j].longitude)
    ensures StrictlySorted(KUpTo(day, inTrine, i, j, k))
    decreases k
  {
    if k > j + 1 {
      KUpToSorted(day, inTrine, i, j, k - 1);
      var last: seq<Triple> := if inTrine(day[j].longitude, day[k - 1].longitude)
                                   && inTrine(day[i].longitude, day[k - 1].longitude)
                                then [Triple(i, j, k - 1)] else [];
      SortedConcat(KUpTo(day, inTrine, i, j, k - 1), last);
    }
  }

  lemma {:induction false} JRunSorted(day: seq<PositionRow>, inTrine: (real, real) -> bool, i: nat, j: nat)
    requires i < j
    ensures StrictlySorted(JRun(day, inTrine, i, j))
    decreases |day| - j
  {
    if j < |day| {
      JRunSorted(day, inTrine, i, j + 1);
      var head: seq<Triple> := [];
      if inTrine(day[i].longitude, day[j].longitude) {
        KUpToSorted(day, inTrine, i, j, |day|);
        head := KUpTo(day, inTrine, i, j, |day|);
      }
      SortedConcat(head, JRun(day, inTrine, i, j + 1));
    }
  }

  lemma {:induction false} IRunSorted(day: seq<PositionRow>, inTrine: (real, real) -> bool, i: nat)
    ensures StrictlySorted(IRun(day, inTrine, i))
    decreases |day| - i
  {
    if i < |day| {
      IRunSorted(day, inTrine, i + 1);
      JRunSorted(day, inTrine, i, i + 1);
      SortedConcat(JRun(day, inTrine, i, i + 1), IRun(day, inTrine, i + 1));
    }
  }

  /** Every triple of the list qualifies. */
  predicate AllQualify(day: seq<PositionRow>, inTrine: (real, real) -> bool, ts: seq<Triple>)
  {
    forall t | t in ts :: Qualifies(day, inTrine, t)
  }

  lemma QualifyAppend(day: seq<PositionRow>, inTrine: (real, real) -> bool, xs: seq<Triple>, ys: seq<Triple>)
    ensures AllQualify(day, inTrine, xs) && AllQualify(day, inTrine, ys) ==> AllQualify(day, inTrine, xs + ys)
  {
  }

  lemma {:induction false} KUpToSound(day: seq<PositionRow>, inTrine: (real, real) -> bool, i: nat, j: nat, k: nat)
    requires i < j < |day| && j < k <= |day|
    requires inTrine(day[i].longitude, day[j].longitude)
    ensures AllQualify(day, inTrine, KUpTo(day, inTrine, i, j, k))
    decreases k
  {
    if k > j + 1 {
      KUpToSound(day, inTrine, i, j, k - 1);
      KUpToStep(day, inTrine, i, j, k - 1);
      if inTrine(day[j].longitude, day[k - 1].longitude) && inTrine(day[i].longitude, day[k - 1].longitude) {
        assert Qualifies(day, inTrine, Triple(i, j, k - 1));
        QualifyAppend(day, inTrine, KUpTo(day, inTrine, i, j, k - 1), [Triple(i, j, k - 1)]);
      }
    }
  }

  lemma {:induction false} JRunSound(day: seq<PositionRow>, inTrine: (real, real) -> bool, i: nat, j: nat)
    requires i < j
    ensures AllQualify(day, inTrine, JRun(day, inTrine, i, j))
    decreases |day| - j
  {
    if j < |day| {
      JRunSound(day, inTrine, i, j + 1);
      JRunStep(day, inTrine, i, j);
      if inTrine(day[i].longitude, day[j].longitude) {
        KUpToSound(day, inTrine, i, j, |day|);
        QualifyAppend(day, inTrine, KUpTo(day, inTrine, i, j, |day|), JRun(day, inTrine, i, j + 1));
      }
    }
  }

  lemma {:induction false} IRunSound(day: seq<PositionRow>, inTrine: (real, real) -> bool, i: nat)
    ensures AllQualify(day, inTrine, IRun(day, inTrine, i))
    decreases |day| - i
  {
    if i < |day| {
      IRunSound(day, inTrine, i + 1);
      JRunSound(day, inTrine, i, i + 1);
      IRunStep(day, inTrine, i);
      QualifyAppend(day, inTrine, JRun(day, inTrine, i, i + 1), IRun(day, inTrine, i + 1));
    }
  }

  lemma {:induction false} KUpToComplete(day: seq<PositionRow>, inTrine: (real, real) -> bool, i: nat, j: nat, k: nat, t: Triple)
    requires i < j < |day| && j < k <= |day|
    requires inTrine(day[i].longitude, day[j].longitude)
    requires Qualifies(day, inTrine, t) && t.i == i && t.j == j && t.k < k
    ensures t in KUpTo(day, inTrine, i, j, k)
    decreases k
  {
    assert j < t.k && inTrine(day[t.j].longitude, day[t.k].longitude) && inTrine(day[t.i].longitude, day[t.k].longitude);
    KUpToStep(day, inTrine, i, j, k - 1);
    if t.k < k - 1 {
      KUpToComplete(day, inTrine, i, j, k - 1, t);
      InAppend(t, KUpTo(day, inTrine, i, j, k - 1), []);
      InAppend(t, KUpTo(day, inTrine, i, j, k - 1), [Triple(i, j, k - 1)]);
    } else {
      assert t == Triple(i, j, k - 1);
      InAppend(t, KUpTo(day, inTrine, i, j, k - 1), [t]);
    }
  }

  lemma InAppend(t: Triple, xs: seq<Triple>, ys: seq<Triple>)
    ensures t in xs || t in ys ==> t in xs + ys
  {
  }

  /** A triple listed from j + 1 on is listed from j on. */
  lemma JRunCompleteLater(day: seq<PositionRow>, inTrine: (real, real) -> bool, i: nat, j: nat, t: Triple)
    requires i < j < |day|
    ensures t in JRun(day, inTrine, i, j + 1) ==> t in JRun(day, inTrine, i, j)
  {
    JRunStep(day, inTrine, i, j);
    if inTrine(day[i].longitude, day[j].longitude) {
      InAppend(t, KUpTo(day, inTrine, i, j, |day|), JRun(day, inTrine, i, j + 1));
    }
  }

  /** A triple listed from j + 1 on for a partner j in trine is listed from j on. */
  lemma JRunHead(day: seq<PositionRow>, inTrine: (real, real) -> bool, i: nat, j: nat, t: Triple)
    requires i < j < |day| && inTrine(day[i].longitude, day[j].longitude)
    ensures t in KUpTo(day, inTrine, i, j, |day|) ==> t in JRun(day, inTrine, i, j)
  {
    JRunStep(day, inTrine, i, j);
    InAppend(t, KUpTo(day, inTrine, i, j, |day|), JRun(day, inTrine, i, j + 1));
  }

  /** A qualifying triple whose second planet is j is listed from j on. */
  lemma JRunCompleteHere(day: seq<PositionRow>, inTrine: (real, real) -> bool, i: nat, j: nat, t: Triple)
    requires i < j
    requires Qualifies(day, inTrine, t) && t.i == i && t.j == j
    ensures t in JRun(day, inTrine, i, j)
  {
    assert t.i < t.j < t.k < |day| && inTrine(day[t.i].longitude, day[t.j].longitude);
    assert inTrine(day[i].longitude, day[j].longitude);
    KUpToComplete(day, inTrine, i, j, |day|, t);
    JRunHead(day, inTrine, i, j, t);
  }

  lemma {:induction false} JRunComplete(day: seq<PositionRow>, inTrine: (real, real) -> bool, i: nat, j: nat, t: Triple)
    requires i < j
    requires Qualifies(day, inTrine, t) && t.i == i && j <= t.j
    ensures t in JRun(day, inTrine, i, j)
    decreases |day| - j
  {
    if t.j > j {
      JRunComplete(day, inTrine, i, j + 1, t);
      JRunCompleteLater(day, inTrine, i, j, t);
    } else {
      JRunCompleteHere(day, inTrine, i, j, t);
    }
  }

  lemma {:induction false} IRunComplete(day: seq<PositionRow>, inTrine: (real, real) -> bool, i: nat, t: Triple)
    requires Qualifies(day, inTrine, t) && i <= t.i
    ensures t in IRun(day, inTrine, i)
    decreases |day| - i
  {
    IRunStep(day, inTrine, i);
    if t.i > i {
      IRunComplete(day, inTrine, i + 1, t);
    } else {
      JRunComplete(day, inTrine, i, i + 1, t);
    }
  }

  /**
    The day's triples are exactly the qualifying ones: every listed triple has
    i < j < k with all three pairs in inTrine, every qualifying triple is listed,
    and the list is strictly increasing in (i, j, k), so none is listed twice.
  */
  lemma TrinesOfCharacterised(day: seq<PositionRow>, inTrine: (real, real) -> bool)
    ensures forall t | t in TrinesOf(day, inTrine) :: Qualifies(day, inTrine, t)
    ensures forall t | Qualifies(day, inTrine, t) :: t in TrinesOf(day, inTrine)
    ensures StrictlySorted(TrinesOf(day, inTrine))
  {
    IRunSound(day, inTrine, 0);
    IRunSorted(day, inTrine, 0);
    forall t | Qualifies(day, inTrine, t) ensures t in TrinesOf(day, inTrine) {
      IRunComplete(day, inTrine, 0, t);
    }
  }

  // Result rows

  /** The identity of a trine: its three planets and their signs. */
  datatype TrineKey = TrineKey(planet1: PlanetId, sign1: Sign, planet2: PlanetId, sign2: Sign,
                               planet3: PlanetId, sign3: Sign)

  /** One entry of `resultados`: the day, the trine's identity and its element. */
  datatype TrineRow = TrineRow(date: real, key: TrineKey, element: string)

  function ElementOfKey(key: TrineKey, signs: SignTable): string
  {
    TrineElement(signs, key.sign1, key.sign2, key.sign3)
  }

  predicate ValidTriples(day: seq<PositionRow>, ts: seq<Triple>)
  {
    forall t | t in ts :: t.i < t.j < t.k < |day|
  }

  /** The row appended for a qualifying triple of the day `jd`. */
  function MkRow(jd: real, day: seq<PositionRow>, t: Triple, signs: SignTable): (r: TrineRow)
    requires t.i < t.j < t.k < |day|
    ensures r.date == jd
    ensures r.key.planet1 == day[t.i].planetId && r.key.sign1 == CalculateSign(day[t.i].longitude)
    ensures r.key.planet2 == day[t.j].planetId && r.key.sign2 == CalculateSign(day[t.j].longitude)
    ensures r.key.planet3 == day[t.k].planetId && r.key.sign3 == CalculateSign(day[t.k].longitude)
    ensures r.element == TrineElement(signs, r.key.sign1, r.key.sign2, r.key.sign3)
  {
    var p1, p2, p3 := day[t.i], day[t.j], day[t.k];
    var key := TrineKey(p1.planetId, SignOf(p1.longitude), p2.planetId, SignOf(p2.longitude),
                        p3.planetId, SignOf(p3.longitude));
    TrineRow(jd, key, ElementOfKey(key, signs))
  }

  /** The rows for a list of triples of one day: row x is built from triple x. */
  function RowsOf(jd: real, day: seq<PositionRow>, ts: seq<Triple>, signs: SignTable): (rows: seq<TrineRow>)
    requires ValidTriples(day, ts)
  {
    seq(|ts|, x requires 0 <= x < |ts| => MkRow(jd, day, ts[x], signs))
  }

  /** The rows one day contributes: one per qualifying triple, in loop order. */
  function DayRows(day: seq<PositionRow>, inTrine: (real, real) -> bool, signs: SignTable): seq<TrineRow>
    requires |day| > 0
  {
    RowsOf(day[0].julday, day, TrinesOf(day, inTrine), signs)
  }

  lemma RowsOfSnoc(jd: real, day: seq<PositionRow>, ts: seq<Triple>, t: Triple, signs: SignTable)
    requires ValidTriples(day, ts) && t.i < t.j < t.k < |day|
    ensures ValidTriples(day, ts + [t])
    ensures RowsOf(jd, day, ts + [t], signs) == RowsOf(jd, day, ts, signs) + [MkRow(jd, day, t, signs)]
  {
  }

  lemma RowsOfAppend(jd: real, day: seq<PositionRow>, ts: seq<Triple>, us: seq<Triple>, signs: SignTable)
    requires ValidTriples(day, ts) && ValidTriples(day, us)
    ensures ValidTriples(day, ts + us)
    ensures RowsOf(jd, day, ts + us, signs) == RowsOf(jd, day, ts, signs) + RowsOf(jd, day, us, signs)
  {
  }

  lemma AppendAssoc(ts: seq<Triple>, us: seq<Triple>, rest: seq<Triple>)
    ensures ts + (us + rest) == (ts + us) + rest
  {
  }

  lemma IRunStep(day: seq<PositionRow>, inTrine: (real, real) -> bool, i: nat)
    requires i < |day|
    ensures IRun(day, inTrine, i) == JRun(day, inTrine, i, i + 1) + IRun(day, inTrine, i + 1)
  {
  }

  lemma KUpToStep(day: seq<PositionRow>, inTrine: (real, real) -> bool, i: nat, j: nat, k: nat)
    requires i < j < k < |day|
    requires inTrine(day[i].longitude, day[j].longitude)
    ensures !(inTrine(day[j].longitude, day[k].longitude) && inTrine(day[i].longitude, day[k].longitude)) ==>
      KUpTo(day, inTrine, i, j, k + 1) == KUpTo(day, inTrine, i, j, k)
    ensures inTrine(day[j].longitude, day[k].longitude) && inTrine(day[i].longitude, day[k].longitude) ==>
      KUpTo(day, inTrine, i, j, k + 1) == KUpTo(day, inTrine, i, j, k) + [Triple(i, j, k)]
  {
  }

  lemma JRunStep(day: seq<PositionRow>, inTrine: (real, real) -> bool, i: nat, j: nat)
    requires i < j < |day|
    ensures !inTrine(day[i].longitude, day[j].longitude) ==>
      JRun(day, inTrine, i, j) == JRun(day, inTrine, i, j + 1)
    ensures inTrine(day[i].longitude, day[j].longitude) ==>
      JRun(day, inTrine, i, j) == KUpTo(day, inTrine, i, j, |day|) + JRun(day, inTrine, i, j + 1)
  {
  }

  /** The rows of the k loop after one more step: one more row exactly when k qualifies. */
  lemma KRowsStep(jd: real, day: seq<PositionRow>, inTrine: (real, real) -> bool, signs: SignTable,
                  i: nat, j: nat, k: nat)
    requires i < j < k < |day|
    requires inTrine(day[i].longitude, day[j].longitude)
    ensures !(inTrine(day[j].longitude, day[k].longitude) && inTrine(day[i].longitude, day[k].longitude)) ==>
      RowsOf(jd, day, KUpTo(day, inTrine, i, j, k + 1), signs) == RowsOf(jd, day, KUpTo(day, inTrine, i, j, k), signs)
    ensures inTrine(day[j].longitude, day[k].longitude) && inTrine(day[i].longitude, day[k].longitude) ==>
      RowsOf(jd, day, KUpTo(day, inTrine, i, j, k + 1), signs)
      == RowsOf(jd, day, KUpTo(day, inTrine, i, j, k), signs) + [MkRow(jd, day, Triple(i, j, k), signs)]
  {
    KUpToStep(day, inTrine, i, j, k);
    if inTrine(day[j].longitude, day[k].longitude) && inTrine(day[i].longitude, day[k].longitude) {
      RowsOfSnoc(jd, day, KUpTo(day, inTrine, i, j, k), Triple(i, j, k), signs);
    }
  }

  /**
    The innermost loop of pages/2_Great_Trine.py:59-79 for a pair (i, j)
    already in trine: each k after j whose planet is in trine with both
    appends its row.
  */
  method ScanThird(day: seq<PositionRow>, inTrine: (real, real) -> bool, signs: SignTable, i: nat, j: nat)
    returns (rows: seq<TrineRow>)
    requires i < j < |day|
    requires inTrine(day[i].longitude, day[j].longitude)
    ensures rows == RowsOf(day[0].julday, day, KUpTo(day, inTrine, i, j, |day|), signs)
  {
    var n := |day|;
    var planet1, lon1 := day[i].planetId, day[i].longitude;
    var planet2, lon2 := day[j].planetId, day[j].longitude;
    var sign1, sign2 := SignOf(lon1), SignOf(lon2);
    rows := [];
    for k := j + 1 to n
      invariant rows == RowsOf(day[0].julday, day, KUpTo(day, inTrine, i, j, k), signs)
    {
      var planet3, lon3 := day[k].planetId, day[k].longitude;
      var sign3 := SignOf(lon3);
      KRowsStep(day[0].julday, day, inTrine, signs, i, j, k);
      if !inTrine(lon2, lon3) {
        continue;
      }
      if !inTrine(lon1, lon3) {
        continue;
      }
      var element := TrineElement(signs, sign1, sign2, sign3);
      var row := TrineRow(day[0].julday, TrineKey(planet1, sign1, planet2, sign2, planet3, sign3), element);
      assert row == MkRow(day[0].julday, day, Triple(i, j, k), signs);
      rows := rows + [row];
    }
  }

  /**
    The middle loop of pages/2_Great_Trine.py:51-79 for a first planet i:
    a partner j not in trine with i is skipped, otherwise the k loop runs.
  */
  method ScanSecond(day: seq<PositionRow>, inTrine: (real, real) -> bool, signs: SignTable, i: nat)
    returns (rows: seq<TrineRow>)
    requires i < |day|
    ensures rows == RowsOf(day[0].julday, day, JRun(day, inTrine, i, i + 1), signs)
  {
    var n := |day|;
    var lon1 := day[i].longitude;
    rows := [];
    ghost var ts: seq<Triple> := [];
    for j := i + 1 to n
      invariant ValidTriples(day, ts)
      invariant rows == RowsOf(day[0].julday, day, ts, signs)
      invariant ts + JRun(day, inTrine, i, j) == JRun(day, inTrine, i, i + 1)
    {
      var lon2 := day[j].longitude;
      JRunStep(day, inTrine, i, j);
      if !inTrine(lon1, lon2) {
        continue;
      }
      var more := ScanThird(day, inTrine, signs, i, j);
      ghost var us := KUpTo(day, inTrine, i, j, |day|);
      RowsOfAppend(day[0].julday, day, ts, us, signs);
      rows := rows + more;
      AppendAssoc(ts, us, JRun(day, inTrine, i, j + 1));
      ts := ts + us;
    }
    assert ts == JRun(day, inTrine, i, i + 1);
  }

  /**
    The nested loops of pages/2_Great_Trine.py:45-79 over one day's group:
    every qualifying triple appends one row, in (i, j, k) order.
  */
  method ScanDay(day: seq<PositionRow>, inTrine: (real, real) -> bool, signs: SignTable) returns (rows: seq<TrineRow>)
    requires |day| > 0
    ensures rows == DayRows(day, inTrine, signs)
  {
    var n := |day|;
    rows := [];
    ghost var ts: seq<Triple> := [];
    for i := 0 to n
      invariant ValidTriples(day, ts)
      invariant rows == RowsOf(day[0].julday, day, ts, signs)
      invariant ts + IRun(day, inTrine, i) == TrinesOf(day, inTrine)
    {
      var more := ScanSecond(day, inTrine, signs, i);
      ghost var us := JRun(day, inTrine, i, i + 1);
      IRunStep(day, inTrine, i);
      RowsOfAppend(day[0].julday, day, ts, us, signs);
      rows := rows + more;
      AppendAssoc(ts, us, IRun(day, inTrine, i + 1));
      ts := ts + us;
    }
    assert ts == TrinesOf(day, inTrine);
  }

  /**
    The rows of one day, read back: row x is built from the x-th qualifying
    triple, so it names three distinct planets each pair of which is in trine,
    and its date is the day's Julian day.
  */
  lemma DayRowsSound(day: seq<PositionRow>, inTrine: (real, real) -> bool, signs: SignTable, x: nat)
    requires |day| > 0 && x < |DayRows(day, inTrine, signs)|
    ensures x < |TrinesOf(day, inTrine)|
    ensures var t := TrinesOf(day, inTrine)[x];
      && Qualifies(day, inTrine, t)
      && DayRows(day, inTrine, signs)[x] == MkRow(day[0].julday, day, t, signs)
      && DayRows(day, inTrine, signs)[x].date == day[0].julday
  {
    TrinesOfCharacterised(day, inTrine);
    assert TrinesOf(day, inTrine)[x] in TrinesOf(day, inTrine);
  }

  // All days

  predicate NonEmptyGroups(groups: seq<seq<PositionRow>>)
  {
    forall x | 0 <= x < |groups| :: |groups[x]| > 0
  }

  /** `resultados` after the loop over the day groups: each day's rows, day after day. */
  function AllRows(groups: seq<seq<PositionRow>>, inTrine: (real, real) -> bool, signs: SignTable): seq<TrineRow>
    requires NonEmptyGroups(groups)
  {
    if |groups| == 0 then []
    else AllRows(groups[..|groups| - 1], inTrine, signs) + DayRows(groups[|groups| - 1], inTrine, signs)
  }

  /**
    The loop over `df.groupby('julday')` of pages/2_Great_Trine.py:41-79,
    each day scanned by ScanDay.
  */
  method ScanDays(groups: seq<seq<PositionRow>>, inTrine: (real, real) -> bool, signs: SignTable)
    returns (rows: seq<TrineRow>)
    requires NonEmptyGroups(groups)
    ensures rows == AllRows(groups, inTrine, signs)
  {
    rows := [];
    for d := 0 to |groups|
      invariant rows == AllRows(groups[..d], inTrine, signs)
    {
      var more := ScanDay(groups[d], inTrine, signs);
      assert groups[..d + 1][..d] == groups[..d];
      rows := rows + more;
    }
    assert groups[..|groups|] == groups;
  }

  predicate DatesAscending(rows: seq<TrineRow>)
  {
    forall a, b | 0 <= a < b < |rows| :: rows[a].date <= rows[b].date
  }

  lemma DayRowsDates(day: seq<PositionRow>, inTrine: (real, real) -> bool, signs: SignTable)
    requires |day| > 0
    ensures forall x | 0 <= x < |DayRows(day, inTrine, signs)| :: DayRows(day, inTrine, signs)[x].date == day[0].julday
  {
  }

  /**
    When the groups come in strictly ascending days, the rows come out in
    ascending date order, every row no later than the last group's day.
  */
  lemma {:induction false} AllRowsAscending(groups: seq<seq<PositionRow>>, inTrine: (real, real) -> bool, signs: SignTable)
    requires NonEmptyGroups(groups)
    requires forall a, b | 0 <= a < b < |groups| :: groups[a][0].julday < groups[b][0].julday
    ensures DatesAscending(AllRows(groups, inTrine, signs))
    ensures |groups| > 0 ==> forall x | 0 <= x < |AllRows(groups, inTrine, signs)| ::
      AllRows(groups, inTrine, signs)[x].date <= groups[|groups| - 1][0].julday
    decreases |groups|
  {
    if |groups| > 0 {
      var init, last := groups[..|groups| - 1], groups[|groups| - 1];
      AllRowsAscending(init, inTrine, signs);
      DayRowsDates(last, inTrine, signs);
      var r0, r1 := AllRows(init, inTrine, signs), DayRows(last, inTrine, signs);
      assert AllRows(groups, inTrine, signs) == r0 + r1;
      if |init| > 0 {
        assert init[|init| - 1][0].julday < last[0].julday;
      }
      forall x | 0 <= x < |r0| ensures r0[x].date <= last[0].julday {
      }
    }
  }

  // Collapsing the rows into periods

  /** One entry of `triângulos_períodos`: a run of rows with the same key. */
  datatype TrinePeriod = TrinePeriod(start: real, end: real, key: TrineKey, element: string)

  /** The number of adjacent pairs among the first n rows whose keys differ. */
  function Changes(rows: seq<TrineRow>, n: nat): nat
    requires n <= |rows|
  {
    if n <= 1 then 0 else Changes(rows, n - 1) + (if rows[n - 1].key != rows[n - 2].key then 1 else 0)
  }

  /** One more row: it extends the open period when it has the same key, else opens a new one. */
  function Extend(ps: seq<TrinePeriod>, r: TrineRow, signs: SignTable): seq<TrinePeriod>
  {
    if |ps| > 0 && ps[|ps| - 1].key == r.key then ps[|ps| - 1 := ps[|ps| - 1].(end := r.date)]
    else ps + [TrinePeriod(r.date, r.date, r.key, ElementOfKey(r.key, signs))]
  }

  /** The periods of the first n rows, adding one row at a time. */
  function CollapseUpTo(rows: seq<TrineRow>, n: nat, signs: SignTable): (c: seq<TrinePeriod>)
    requires n <= |rows|
    ensures |c| <= n
    ensures |c| == 0 <==> n == 0
  {
    if n == 0 then [] else Extend(CollapseUpTo(rows, n - 1, signs), rows[n - 1], signs)
  }

  /** The periods of a row stream: maximal runs of adjacent rows sharing a key. */
  function Collapse(rows: seq<TrineRow>, signs: SignTable): (ps: seq<TrinePeriod>)
    ensures |ps| <= |rows|
    ensures |ps| == 0 <==> |rows| == 0
    ensures |rows| > 0 ==> ps[|ps| - 1].key == rows[|rows| - 1].key && ps[|ps| - 1].end == rows[|rows| - 1].date
  {
    CollapseUpTo(rows, |rows|, signs)
  }

  /**
    The collapse loop of pages/2_Great_Trine.py:93-139: `current` is the key
    being tracked and `startDate` the date its run began; a key change closes
    the period at the previous row's date, and the last period closes at the
    last row's date.
  */
  method CollapsePeriods(rows: seq<TrineRow>, signs: SignTable) returns (periods: seq<TrinePeriod>)
    ensures periods == Collapse(rows, signs)
  {
    periods := [];
    var current: Option<TrineKey> := None;
    var startDate: real := 0.0;
    for index := 0 to |rows|
      invariant current.None? <==> index == 0
      invariant index == 0 ==> periods == []
      invariant index > 0 ==>
        CollapseUpTo(rows, index, signs)
        == periods + [TrinePeriod(startDate, rows[index - 1].date, current.value, ElementOfKey(current.value, signs))]
    {
      var row := rows[index];
      if index > 0 {
        ExtendOpen(periods, TrinePeriod(startDate, rows[index - 1].date, current.value,
                                        ElementOfKey(current.value, signs)), row, signs);
      }
      if current.None? {
        current := Some(row.key);
        startDate := row.date;
      } else if row.key != current.value {
        var k := current.value;
        periods := periods + [TrinePeriod(startDate, rows[index - 1].date, k, TrineElement(signs, k.sign1, k.sign2, k.sign3))];
        current := Some(row.key);
        startDate := row.date;
      }
    }
    if current.Some? {
      var k := current.value;
      periods := periods + [TrinePeriod(startDate, rows[|rows| - 1].date, k, TrineElement(signs, k.sign1, k.sign2, k.sign3))];
    }
  }

  /** One more row, seen from the open period at the end: it is extended or followed by a new one. */
  lemma ExtendOpen(closed: seq<TrinePeriod>, open: TrinePeriod, r: TrineRow, signs: SignTable)
    ensures Extend(closed + [open], r, signs)
            == if open.key == r.key then closed + [open.(end := r.date)]
               else closed + [open, TrinePeriod(r.date, r.date, r.key, ElementOfKey(r.key, signs))]
  {
  }

  /** What one more row does to the periods, position by position. */
  lemma ExtendAt(ps: seq<TrinePeriod>, r: TrineRow, signs: SignTable)
    ensures var e := Extend(ps, r, signs);
      if |ps| > 0 && ps[|ps| - 1].key == r.key then
        && |e| == |ps|
        && (forall p | 0 <= p < |ps| - 1 :: e[p] == ps[p])
        && e[|ps| - 1] == ps[|ps| - 1].(end := r.date)
      else
        && |e| == |ps| + 1
        && (forall p | 0 <= p < |ps| :: e[p] == ps[p])
        && e[|ps|] == TrinePeriod(r.date, r.date, r.key, ElementOfKey(r.key, signs))
  {
  }

  /**
    Shape of the collapse of the first n rows: no rows give no periods;
    otherwise there is one period more than there are key changes, and the
    last period carries the last row's key and ends at its date.
  */
  lemma {:induction false} CollapseCount(rows: seq<TrineRow>, signs: SignTable, n: nat)
    requires n <= |rows|
    ensures n == 0 <==> |CollapseUpTo(rows, n, signs)| == 0
    ensures n > 0 ==> var ps := CollapseUpTo(rows, n, signs);
      && |ps| == 1 + Changes(rows, n)
      && ps[|ps| - 1].key == rows[n - 1].key
      && ps[|ps| - 1].end == rows[n - 1].date
  {
    if n > 0 {
      CollapseCount(rows, signs, n - 1);
      ExtendAt(CollapseUpTo(rows, n - 1, signs), rows[n - 1], signs);
    }
  }

  /** The first period starts at the first row's date. */
  lemma {:induction false} CollapseFirstStart(rows: seq<TrineRow>, signs: SignTable, n: nat)
    requires 0 < n <= |rows|
    ensures |CollapseUpTo(rows, n, signs)| > 0 && CollapseUpTo(rows, n, signs)[0].start == rows[0].date
  {
    CollapseCount(rows, signs, n);
    ExtendAt(CollapseUpTo(rows, n - 1, signs), rows[n - 1], signs);
    if n > 1 {
      CollapseFirstStart(rows, signs, n - 1);
    }
  }

  /** Neighbouring periods have different keys. */
  predicate KeysAlternate(ps: seq<TrinePeriod>)
  {
    forall p, q | 0 <= p < |ps| && 0 <= q < |ps| && q == p + 1 :: ps[p].key != ps[q].key
  }

  /** Each period's element is the element of its key's three signs. */
  predicate ElementsMatch(ps: seq<TrinePeriod>, signs: SignTable)
  {
    forall p | 0 <= p < |ps| :: ps[p].element == ElementOfKey(ps[p].key, signs)
  }

  /** The periods alternate in key, and each carries its key's element. */
  lemma {:induction false} CollapseKeysAndElements(rows: seq<TrineRow>, signs: SignTable, n: nat)
    requires n <= |rows|
    ensures KeysAlternate(CollapseUpTo(rows, n, signs))
    ensures ElementsMatch(CollapseUpTo(rows, n, signs), signs)
  {
    if n > 0 {
      CollapseKeysAndElements(rows, signs, n - 1);
      var ps0, ps := CollapseUpTo(rows, n - 1, signs), CollapseUpTo(rows, n, signs);
      var r := rows[n - 1];
      ExtendAt(ps0, r, signs);
      if |ps0| > 0 && ps0[|ps0| - 1].key == r.key {
        forall p | 0 <= p < |ps| ensures ps[p].key == ps0[p].key && ps[p].element == ps0[p].element {
        }
      }
    }
  }

  /**
    Later rows never reopen a period: the periods of the first m rows are
    those of the first n, except that the last of them may end later.
  */
  lemma {:induction false} CollapsePrefix(rows: seq<TrineRow>, signs: SignTable, m: nat, n: nat)
    requires 0 < m <= n <= |rows|
    ensures var c, all := CollapseUpTo(rows, m, signs), CollapseUpTo(rows, n, signs);
      && 0 < |c| <= |all|
      && (forall p | 0 <= p < |c| - 1 :: all[p] == c[p])
      && all[|c| - 1].start == c[|c| - 1].start
      && all[|c| - 1].key == c[|c| - 1].key
  {
    if m < n {
      CollapsePrefix(rows, signs, m, n - 1);
      var c, prev, all := CollapseUpTo(rows, m, signs), CollapseUpTo(rows, n - 1, signs), CollapseUpTo(rows, n, signs);
      assert all == Extend(prev, rows[n - 1], signs);
      assert 0 < |c| <= |prev| <= |all|;
      ExtendAt(prev, rows[n - 1], signs);
    }
  }

  /** At a key change before row b, the periods of the first b+1 rows end with row b-1's and row b's. */
  lemma CollapseBoundaryPrefix(rows: seq<TrineRow>, signs: SignTable, b: nat)
    requires 0 < b < |rows| && rows[b].key != rows[b - 1].key
    ensures var p, c := Changes(rows, b), CollapseUpTo(rows, b + 1, signs);
      && |c| == p + 2
      && c[p].key == rows[b - 1].key && c[p].end == rows[b - 1].date
      && c[p + 1].key == rows[b].key && c[p + 1].start == rows[b].date
  {
    CollapseCount(rows, signs, b);
    ExtendAt(CollapseUpTo(rows, b, signs), rows[b], signs);
  }

  /**
    At a key change between rows b-1 and b, the period of row b-1 ends at
    that row's date and the next period starts at row b's date: periods end
    at `index - 1`, not at the row that changes the key.
  */
  lemma CollapseBoundary(rows: seq<TrineRow>, signs: SignTable, b: nat)
    requires 0 < b < |rows| && rows[b].key != rows[b - 1].key
    ensures var p, ps := Changes(rows, b), Collapse(rows, signs);
      && p + 1 < |ps|
      && ps[p].key == rows[b - 1].key && ps[p].end == rows[b - 1].date
      && ps[p + 1].key == rows[b].key && ps[p + 1].start == rows[b].date
  {
    var p := Changes(rows, b);
    var c := CollapseUpTo(rows, b + 1, signs);
    CollapseBoundaryPrefix(rows, signs, b);
    CollapsePrefix(rows, signs, b + 1, |rows|);
    assert Collapse(rows, signs)[p] == c[p];
  }

  /**
    Row r belongs to period number Changes(rows, r + 1), which carries its
    key: adjacent rows with equal keys share a period whatever their dates.
  */
  lemma CollapseCovers(rows: seq<TrineRow>, signs: SignTable, r: nat)
    requires r < |rows|
    ensures var p, ps := Changes(rows, r + 1), Collapse(rows, signs);
      p < |ps| && ps[p].key == rows[r].key
    ensures 0 < r && rows[r].key == rows[r - 1].key ==> Changes(rows, r + 1) == Changes(rows, r)
  {
    CollapseCount(rows, signs, r + 1);
    CollapsePrefix(rows, signs, r + 1, |rows|);
  }

  /**
    Days 2, 3 and 4 carry trine A and day 5 carries trine B: two periods, the
    first from day 2 to day 4 and the second on day 5 alone.
  */
  lemma CollapseTwoRuns(signs: SignTable)
    ensures var a, b := TrineKey(0, 0, 4, 4, 8, 8), TrineKey(1, 1, 5, 5, 9, 9);
      Collapse([TrineRow(2.0, a, ""), TrineRow(3.0, a, ""), TrineRow(4.0, a, ""), TrineRow(5.0, b, "")], signs)
      == [TrinePeriod(2.0, 4.0, a, ElementOfKey(a, signs)), TrinePeriod(5.0, 5.0, b, ElementOfKey(b, signs))]
  {
    var a, b := TrineKey(0, 0, 4, 4, 8, 8), TrineKey(1, 1, 5, 5, 9, 9);
    var rows := [TrineRow(2.0, a, ""), TrineRow(3.0, a, ""), TrineRow(4.0, a, ""), TrineRow(5.0, b, "")];
    var ea, eb := ElementOfKey(a, signs), ElementOfKey(b, signs);
    var p1, p2, p3 := [TrinePeriod(2.0, 2.0, a, ea)], [TrinePeriod(2.0, 3.0, a, ea)], [TrinePeriod(2.0, 4.0, a, ea)];
    assert CollapseUpTo(rows, 1, signs) == p1;
    assert CollapseUpTo(rows, 2, signs) == p2;
    assert CollapseUpTo(rows, 3, signs) == p3;
    assert CollapseUpTo(rows, 4, signs) == p3 + [TrinePeriod(5.0, 5.0, b, eb)];
  }

  /**
    A trine seen on day 2 and again on day 5, with no row in between, makes a
    single period from day 2 to day 5: runs break on key changes only.
  */
  lemma CollapseBridgesGaps(signs: SignTable)
    ensures var a := TrineKey(0, 0, 4, 4, 8, 8);
      Collapse([TrineRow(2.0, a, ""), TrineRow(5.0, a, "")], signs)
      == [TrinePeriod(2.0, 5.0, a, ElementOfKey(a, signs))]
  {
    var a := TrineKey(0, 0, 4, 4, 8, 8);
    var rows := [TrineRow(2.0, a, ""), TrineRow(5.0, a, "")];
    var p1 := [TrinePeriod(2.0, 2.0, a, ElementOfKey(a, signs))];
    assert CollapseUpTo(rows, 1, signs) == p1;
  }

  /**
    Two trines present on the same two days interleave in the row stream, so
    every row opens a period of its own.
  */
  lemma CollapseInterleaved(signs: SignTable)
    ensures var a, b := TrineKey(0, 0, 4, 4, 8, 8), TrineKey(0, 0, 4, 4, 9, 8);
      |Collapse([TrineRow(2.0, a, ""), TrineRow(2.0, b, ""), TrineRow(3.0, a, ""), TrineRow(3.0, b, "")], signs)| == 4
  {
    var a, b := TrineKey(0, 0, 4, 4, 8, 8), TrineKey(0, 0, 4, 4, 9, 8);
    var rows := [TrineRow(2.0, a, ""), TrineRow(2.0, b, ""), TrineRow(3.0, a, ""), TrineRow(3.0, b, "")];
    CollapseCount(rows, signs, 4);
    assert Changes(rows, 2) == 1;
    assert Changes(rows, 3) == 2;
  }

  // The whole scan

  /** The page's pair test: `is_aspect(lon1, lon2, 2)` with the trine's angle and orb. */
  function TrineTest(trine: AspectDef): (test: (real, real) -> bool)
    ensures forall a, b :: test(a, b) <==> IsAspect(a, b, trine)
    ensures forall a, b :: test(a, b) <==> test(b, a)
  {
    assert forall a, b :: IsAspect(a, b, trine) ==> IsAspect(b, a, trine) by {
      forall a, b ensures IsAspect(a, b, trine) ==> IsAspect(b, a, trine) {
        IsAspectSymmetric(a, b, trine);
      }
    }
    (a: real, b: real) => IsAspect(a, b, trine)
  }

  /**
    `resultados` for a scan from Julian day `startJd` to `endJd`: the daily
    position table, grouped by day, each day scanned for trines.
  */
  function ScanRows(startJd: real, endJd: real, planets: seq<PlanetId>, lonAt: (real, PlanetId) -> Longitude,
                    inTrine: (real, real) -> bool, signs: SignTable): seq<TrineRow>
  {
    var table := PositionTable(Samples(startJd, 1.0, SampleCount(startJd, endJd, 1.0)), planets, lonAt);
    GroupRunsPartition(table);
    AllRows(GroupRuns(table), inTrine, signs)
  }

  /** The rows of a scan come out in ascending date order. */
  lemma ScanRowsAscending(startJd: real, endJd: real, planets: seq<PlanetId>, lonAt: (real, PlanetId) -> Longitude,
                          inTrine: (real, real) -> bool, signs: SignTable)
    ensures DatesAscending(ScanRows(startJd, endJd, planets, lonAt, inTrine, signs))
  {
    var times := Samples(startJd, 1.0, SampleCount(startJd, endJd, 1.0));
    var table := PositionTable(times, planets, lonAt);
    GroupRunsPartition(table);
    if |planets| == 0 {
      PositionTableLength(times, planets, lonAt);
      assert table == [];
      assert GroupRuns(table) == [];
    } else {
      forall a, b | 0 <= a < b < |times| ensures times[a] < times[b] {
        SamplesIncreasing(startJd, 1.0, |times|, a, b);
      }
      GroupRunsOfTable(times, planets, lonAt);
      var groups: seq<seq<PositionRow>> := GroupRuns(table);
      forall x | 0 <= x < |groups|
        ensures groups[x][0].julday == times[x]
      {
        assert groups[x] == Block(times[x], planets, lonAt);
      }
      AllRowsAscending(groups, inTrine, signs);
    }
  }

  /**
    The "Find Great Trines" action of pages/2_Great_Trine.py:24-139 on two
    calendar dates: the range is checked on day numbers, positions are
    sampled daily from the start's Julian day to the end's, every day is
    scanned for trines with aspect id 2, and the row stream is collapsed into
    periods. An empty row stream gives no periods.
  */
  method FindGreatTrines(start: CalendarValue, end: CalendarValue, dayNumber: (int, int, int) -> int,
                         julday: (int, int, int, real) -> real, planets: seq<PlanetId>,
                         lonAt: (real, PlanetId) -> Longitude, aspects: AspectTable, signs: SignTable)
    returns (r: Result<seq<TrinePeriod>, RangeError>)
    requires start.Date? && end.Date?
    requires AspectById(aspects, TrineId).Some?
    ensures var first, last := dayNumber(start.year, start.month, start.day), dayNumber(end.year, end.month, end.day);
      && (r.Failure? <==> !(first < last <= first + 366))
      && (r == Failure(EndNotAfterStart) <==> last <= first)
    ensures r.Success? ==>
      r.value == Collapse(ScanRows(julday(start.year, start.month, start.day, 0.0), julday(end.year, end.month, end.day, 0.0),
                                   planets, lonAt, TrineTest(AspectById(aspects, TrineId).value), signs), signs)
  {
    var startJd := DatetimeToJulday(start, julday);
    var endJd := DatetimeToJulday(end, julday);
    var check := CheckRange(dayNumber(start.year, start.month, start.day), dayNumber(end.year, end.month, end.day));
    if check.Failure? {
      return Failure(check.error);
    }
    var inTrine := TrineTest(AspectById(aspects, TrineId).value);
    var df := CalculatePlanetPositions(startJd, endJd, 1.0, planets, lonAt);
    GroupRunsPartition(df);
    var rows := ScanDays(GroupRuns(df), inTrine, signs);
    var periods := CollapsePeriods(rows, signs);
    return Success(periods);
  }
}

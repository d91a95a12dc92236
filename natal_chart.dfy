/**
  Natal chart assembly (pages/1_Natal_Chart.py): the birth place as signed
  decimal degrees, the house and planet tables, the retrograde mark and the
  aspect matrix. The ephemeris calls (`swe.houses`, `swe.calc_ut`) arrive as
  their results or as function-typed parameters.
*/
module NatalChart {
  import opened Wrappers
  import opened SwissEph
  import opened Zodiac
  import opened Aspects
  import opened TimeConversion

  // Birth place

  /** Degrees and minutes as decimal degrees, negated for the negative hemisphere. */
  function SignedDegrees(deg: int, min: int, negative: bool): real
  {
    var x := deg as real + min as real / 60.0;
    if negative then -x else x
  }

  /**
    Lines 29-32 for one coordinate: `deg + min / 60`, then multiplied by -1
    when the selected direction is the negative one ('S' for latitude, 'W' for
    longitude). An unselected direction (None) counts as positive.
  */
  method CoordinateDecimal(deg: int, min: int, direction: Option<string>, negativeDirection: string)
    returns (x: real)
    ensures x == SignedDegrees(deg, min, direction == Some(negativeDirection))
  {
    x := deg as real + min as real / 60.0;
    x := x * (if direction == Some(negativeDirection) then -1.0 else 1.0);
  }

  /** The latitude of lines 29 and 31: negative exactly for 'S'. */
  method LatitudeDecimal(deg: int, min: int, direction: Option<string>) returns (x: real)
    ensures x == SignedDegrees(deg, min, direction == Some("S"))
  {
    x := CoordinateDecimal(deg, min, direction, "S");
  }

  /** The longitude of lines 30 and 32: negative exactly for 'W'. */
  method LongitudeDecimal(deg: int, min: int, direction: Option<string>) returns (x: real)
    ensures x == SignedDegrees(deg, min, direction == Some("W"))
  {
    x := CoordinateDecimal(deg, min, direction, "W");
  }

  /**
    The decimal value gives the inputs back: with whole degrees and 0..59
    minutes, the whole part of |x| is the degrees, sixty times the rest is
    the minutes, and x is negative exactly when the negative hemisphere was
    chosen and the position is not zero.
  */
  lemma SignedDegreesRoundTrip(deg: int, min: int, negative: bool)
    requires 0 <= deg && 0 <= min < 60
    ensures var x := SignedDegrees(deg, min, negative);
      var a := if x < 0.0 then -x else x;
      && a.Floor == deg
      && (a - deg as real) * 60.0 == min as real
      && (x < 0.0 <==> negative && (deg > 0 || min > 0))
  {
    var a := deg as real + min as real / 60.0;
    assert deg as real <= a < deg as real + 1.0;
  }

  /**
    Bounds that follow from the input widgets (degrees at most 90 or 180,
    minutes at most 59): |latitude| <= 90 + 59/60 and |longitude| <= 180 + 59/60;
    90 degrees 59 minutes is accepted and lies past the pole.
  */
  lemma SignedDegreesBounds(deg: int, min: int, negative: bool, maxDeg: int)
    requires 0 <= deg <= maxDeg && 0 <= min <= 59
    ensures -(maxDeg as real + 59.0 / 60.0) <= SignedDegrees(deg, min, negative) <= maxDeg as real + 59.0 / 60.0
    ensures SignedDegrees(90, 59, false) > 90.0
  {
  }

  // Houses

  /** One row of the house table: number, cusp longitude and its sign text. */
  datatype HouseRow = HouseRow(house: int, longitude: Longitude, text: string)

  /**
    Lines 39-44: one row per cusp returned by `swe.houses`, in cusp order,
    the cusp at index k being house k+1.
  */
  method BuildHouseRows(cusps: seq<Longitude>, signs: SignTable) returns (rows: seq<HouseRow>)
    ensures |rows| == |cusps|
    ensures forall k | 0 <= k < |cusps| ::
      rows[k].house == k + 1 && rows[k].longitude == cusps[k]
      && Some(rows[k].text) == SignString(cusps[k], signs)
  {
    rows := [];
    for id := 0 to |cusps|
      invariant |rows| == id
      invariant forall k | 0 <= k < id ::
        rows[k].house == k + 1 && rows[k].longitude == cusps[k]
        && Some(rows[k].text) == SignString(cusps[k], signs)
    {
      var text := SignString(cusps[id], signs);
      rows := rows + [HouseRow(id + 1, cusps[id], text.value)];
    }
  }

  // Planets

  /** The retrograde mark exactly as stored in the page (a mis-decoded "℞"). */
  const RetrogradeMark: string := "\U{00E2}\U{201E}\U{017E}"

  /** Line 53: the mark when the longitude speed is negative, otherwise empty. */
  function RetrogradeStatus(lonSpeed: real): (mark: string)
    ensures mark != "" <==> lonSpeed < 0.0
    ensures mark == "" || mark == RetrogradeMark
  {
    if lonSpeed < 0.0 then RetrogradeMark else ""
  }

  /** A planet of the reference table, in its dictionary order. */
  datatype PlanetInfo = PlanetInfo(id: int, name: string, symbol: string)

  /** The six numbers `swe.calc_ut(jd, id)[0]` returns. */
  datatype BodyState = BodyState(longitude: Longitude, latitude: real, distance: real,
                                 lonSpeed: real, latSpeed: real, distSpeed: real)

  /** One row of the planet table. */
  datatype PlanetRow = PlanetRow(id: int, name: string, direction: string, symbol: string,
                                 state: BodyState, text: string)

  /**
    Lines 50-66: one row per planet in table order, with the ephemeris
    state, the retrograde mark and the sign text of its longitude.
  */
  method BuildPlanetRows(jd: real, planets: seq<PlanetInfo>, calcUt: (real, int) -> BodyState, signs: SignTable)
    returns (rows: seq<PlanetRow>)
    ensures |rows| == |planets|
    ensures forall k | 0 <= k < |planets| ::
      && rows[k].id == planets[k].id && rows[k].name == planets[k].name && rows[k].symbol == planets[k].symbol
      && rows[k].state == calcUt(jd, planets[k].id)
      && (rows[k].direction != "" <==> rows[k].state.lonSpeed < 0.0)
      && Some(rows[k].text) == SignString(rows[k].state.longitude, signs)
  {
    rows := [];
    for k := 0 to |planets|
      invariant |rows| == k
      invariant forall x | 0 <= x < k ::
        && rows[x].id == planets[x].id && rows[x].name == planets[x].name && rows[x].symbol == planets[x].symbol
        && rows[x].state == calcUt(jd, planets[x].id)
        && (rows[x].direction != "" <==> rows[x].state.lonSpeed < 0.0)
        && Some(rows[x].text) == SignString(rows[x].state.longitude, signs)
    {
      var planet := planets[k];
      var state := calcUt(jd, planet.id);
      var retrograde := RetrogradeStatus(state.lonSpeed);
      var text := SignString(state.longitude, signs);
      rows := rows + [PlanetRow(planet.id, planet.name, retrograde, planet.symbol, state, text.value)];
    }
  }

  // Aspect matrix

  /** The found aspect's id is a key of the table, so its symbol can be looked up. */
  lemma FindAspectInTable(lon1: real, lon2: real, t: seq<AspectDef>)
    requires FindAspect(lon1, lon2, t).Some?
    ensures AspectById(t, FindAspect(lon1, lon2, t).value).Some?
  {
    var k :| 0 <= k < |t| && t[k].id == FindAspect(lon1, lon2, t).value && IsAspect(lon1, lon2, t[k])
             && forall e | 0 <= e < k :: !IsAspect(lon1, lon2, t[e]);
  }

  /** The symbol shown for a pair of longitudes: the first matching aspect's, or empty. */
  function AspectSymbol(lon1: real, lon2: real, t: seq<AspectDef>): (s: string)
    ensures FindAspect(lon1, lon2, t).None? ==> s == ""
    ensures FindAspect(lon1, lon2, t).Some? ==>
              exists k | 0 <= k < |t| :: t[k].id == FindAspect(lon1, lon2, t).value && t[k].symbol == s
  {
    match FindAspect(lon1, lon2, t)
    case None => ""
    case Some(id) =>
      FindAspectInTable(lon1, lon2, t);
      AspectById(t, id).value.symbol
  }

  /**
    Cell (r, c) of the finished matrix: below the diagonal, the symbol for
    planets c and r (c the earlier); on and above it, empty.
  */
  function Cell(lons: seq<real>, t: seq<AspectDef>, r: int, c: int): (s: string)
    requires 0 <= r < |lons| && 0 <= c < |lons|
    ensures r <= c ==> s == ""
    ensures r > c ==> s == AspectSymbol(lons[c], lons[r], t)
  {
    if r > c then AspectSymbol(lons[c], lons[r], t) else ""
  }

  /**
    Lines 75-85: an N x N matrix of empty strings, then for each pair i < j
    the symbol of `find_aspect(lon_i, lon_j)` written at row j, column i.
  */
  method AspectMatrix(rows: seq<PlanetRow>, aspects: AspectTable) returns (m: array2<string>)
    ensures fresh(m)
    ensures m.Length0 == |rows| && m.Length1 == |rows|
    ensures forall r, c | 0 <= r < |rows| && 0 <= c < |rows| ::
      m[r, c] == Cell(seq(|rows|, x requires 0 <= x < |rows| => rows[x].state.longitude as real), aspects, r, c)
  {
    var n := |rows|;
    ghost var lons := seq(n, x requires 0 <= x < n => rows[x].state.longitude as real);
    m := new string[n, n]((_, _) => "");
    for i := 0 to n
      invariant forall r, c | 0 <= r < n && 0 <= c < n ::
        m[r, c] == (if c < i then Cell(lons, aspects, r, c) else "")
    {
      var lon1 := rows[i].state.longitude;
      for j := i + 1 to n
        invariant forall r, c | 0 <= r < n && 0 <= c < n ::
          m[r, c] == (if c < i || (c == i && r < j) then Cell(lons, aspects, r, c) else "")
      {
        var lon2 := rows[j].state.longitude;
        var aspect := FindAspect(lon1, lon2, aspects);
        if aspect.Some? {
          FindAspectInTable(lon1, lon2, aspects);
          m[j, i] := AspectById(aspects, aspect.value).value.symbol;
        }
      }
    }
  }

  /**
    Read either way round, a pair gets the same symbol: the lower-triangle
    entry also describes the pair (r, c) in the other order.
  */
  lemma CellOrderFree(lons: seq<real>, t: seq<AspectDef>, r: int, c: int)
    requires 0 <= c < r < |lons|
    ensures Cell(lons, t, r, c) == AspectSymbol(lons[r], lons[c], t)
    ensures Cell(lons, t, c, r) == "" && Cell(lons, t, r, r) == ""
  {
    FindAspectSymmetric(lons[c], lons[r], t);
  }

  /** A cell is non-empty only below the diagonal, and only when some aspect holds. */
  lemma CellNonEmpty(lons: seq<real>, t: seq<AspectDef>, r: int, c: int)
    requires 0 <= r < |lons| && 0 <= c < |lons|
    requires forall k | 0 <= k < |t| :: t[k].symbol != ""
    ensures Cell(lons, t, r, c) != "" <==> r > c && exists k | 0 <= k < |t| :: IsAspect(lons[c], lons[r], t[k])
  {
    if r > c {
      var f := FindAspect(lons[c], lons[r], t);
      if f.Some? {
        FindAspectInTable(lons[c], lons[r], t);
        var a := AspectById(t, f.value).value;
        var k :| 0 <= k < |t| && t[k] == a;
      }
    }
  }

  /**
    Three bodies at 0, 50 and 120 degrees against a table holding only a
    120-degree aspect with an 8-degree orb: the only non-empty cell is row 2,
    column 0.
  */
  lemma ThreeBodyMatrix()
    ensures var t := [AspectDef(TrineId, "Trine", "T", 120.0, 8.0)];
      var lons := [0.0, 50.0, 120.0];
      forall r, c | 0 <= r < 3 && 0 <= c < 3 :: Cell(lons, t, r, c) == (if r == 2 && c == 0 then "T" else "")
  {
    var t := [AspectDef(TrineId, "Trine", "T", 120.0, 8.0)];
    assert DegNorm(-50.0) == 310.0;
    assert DegNorm(-120.0) == 240.0;
    assert DegNorm(-70.0) == 290.0;
    assert Separation(0.0, 50.0) == 50.0;
    assert Separation(0.0, 120.0) == 120.0;
    assert Separation(50.0, 120.0) == 70.0;
    assert t[1..] == [];
  }

  // The whole chart

  /**
    The "Show Chart" action of lines 16-85: the birth date and UTC time to a
    Julian day, the birth place to signed degrees, the Placidus cusps and the
    planet states from the ephemeris at that Julian day and place, then the
    three tables.
  */
  method ShowChart(year: int, month: int, day: int, hour: int, minute: int,
                   latDeg: int, latMin: int, latDir: Option<string>,
                   lonDeg: int, lonMin: int, lonDir: Option<string>,
                   julday: (int, int, int, real) -> real, houses: (real, real, real) -> seq<Longitude>,
                   calcUt: (real, int) -> BodyState, planets: seq<PlanetInfo>,
                   aspects: AspectTable, signs: SignTable)
    returns (houseRows: seq<HouseRow>, planetRows: seq<PlanetRow>, matrix: array2<string>)
    ensures var jd := julday(year, month, day, HourFraction(hour, minute, 0, 0));
      var cusps := houses(jd, SignedDegrees(latDeg, latMin, latDir == Some("S")),
                          SignedDegrees(lonDeg, lonMin, lonDir == Some("W")));
      && |houseRows| == |cusps|
      && (forall k | 0 <= k < |cusps| :: houseRows[k].house == k + 1 && houseRows[k].longitude == cusps[k])
      && |planetRows| == |planets|
      && (forall k | 0 <= k < |planets| :: planetRows[k].state == calcUt(jd, planets[k].id))
    ensures fresh(matrix) && matrix.Length0 == |planets| && matrix.Length1 == |planets|
  {
    var birth := DateTime(year, month, day, hour, minute, 0, 0);
    var jd := DatetimeToJulday(birth, julday);
    var lat := LatitudeDecimal(latDeg, latMin, latDir);
    var lon := LongitudeDecimal(lonDeg, lonMin, lonDir);
    var cusps := houses(jd, lat, lon);
    houseRows := BuildHouseRows(cusps, signs);
    planetRows := BuildPlanetRows(jd, planets, calcUt, signs);
    matrix := AspectMatrix(planetRows, aspects);
  }
}

/**
  The solar revolution map (pages/3_Solar_Revolution.py): the moment the Sun
  returns to its birth longitude in a chosen year, the ascendant's sign at
  every whole-degree point of a latitude/longitude grid, the sign colours as
  RGBA quadruples, and the four-column legend. `swe.calc_ut`, `swe.solcross`
  and `swe.houses` are function-typed parameters.
*/
module SolarRevolution {
  import opened Wrappers
  import opened Zodiac
  import opened TimeConversion
  import opened SwissEph

  /** The colour of each sign, Aries first. */
  const Colors: seq<string> := ["#C60000", "#179559", "#FFB100", "#B8C2CA", "#A12600", "#A66018",
                                "#EA987F", "#080808", "#EC6F29", "#B68C74", "#197E91", "#598F88"]

  /** The sign names of the legend, in the same order. */
  const SignNames: seq<string> := ["Aries", "Taurus", "Gemini", "Cancer", "Leo", "Virgo", "Libra",
                                   "Scorpio", "Sagittarius", "Capricorn", "Aquarius", "Pisces"]

  // Hex colours

  /** `s.lstrip(c)`: s without its leading run of c. */
  function LStrip(s: string, c: char): (r: string)
    ensures |r| <= |s| && r == s[|s| - |r|..]
    ensures forall k | 0 <= k < |s| - |r| :: s[k] == c
    ensures |r| == 0 || r[0] != c
  {
    if |s| > 0 && s[0] == c then LStrip(s[1..], c) else s
  }

  /** Python's clamped slice `s[i:j]` for 0 <= i <= j. */
  function Slice(s: string, i: nat, j: nat): (r: string)
    requires i <= j
    ensures |r| == (if j <= |s| then j - i else if i <= |s| then |s| - i else 0)
    ensures forall k | 0 <= k < |r| :: r[k] == s[i + k]
  {
    if i >= |s| then [] else if j >= |s| then s[i..] else s[i..j]
  }

  /** The value of one hexadecimal digit, either case. */
  function HexDigit(c: char): (r: Option<nat>)
    ensures r.Some? <==> '0' <= c <= '9' || 'a' <= c <= 'f' || 'A' <= c <= 'F'
    ensures r.Some? ==> r.value < 16
  {
    if '0' <= c <= '9' then Some(c as nat - '0' as nat)
    else if 'a' <= c <= 'f' then Some(c as nat - 'a' as nat + 10)
    else if 'A' <= c <= 'F' then Some(c as nat - 'A' as nat + 10)
    else None
  }

  /**
    `int(s, 16)` on a slice of at most two characters: one or two hexadecimal
    digits; None for the empty slice or a non-digit character, where Python
    raises ValueError.
  */
  function ParsePair(s: string): (r: Option<nat>)
    requires |s| <= 2
    ensures r.Some? <==> |s| > 0 && (forall k | 0 <= k < |s| :: HexDigit(s[k]).Some?)
    ensures r.Some? ==> r.value < 256
    ensures |s| == 2 && r.Some? ==> r.value == 16 * HexDigit(s[0]).value + HexDigit(s[1]).value
  {
    if |s| == 0 then None
    else if |s| == 1 then HexDigit(s[0])
    else if HexDigit(s[0]).Some? && HexDigit(s[1]).Some? then
      Some(16 * HexDigit(s[0]).value + HexDigit(s[1]).value)
    else None
  }

  /**
    The component at position x (0, 1 or 2) of a stripped colour: the pair at
    offset 2x, or the single digit left when the string ends inside the pair.
  */
  function Component(h: string, x: nat): (r: Option<nat>)
    requires x < 3
    ensures r.Some? ==> r.value < 256
    ensures |h| <= 2 * x ==> r.None?
    ensures |h| == 2 * x + 1 ==> r == HexDigit(h[2 * x])
    ensures |h| >= 2 * x + 2 ==>
              (r.Some? <==> HexDigit(h[2 * x]).Some? && HexDigit(h[2 * x + 1]).Some?) &&
              (r.Some? ==> r.value == 16 * HexDigit(h[2 * x]).value + HexDigit(h[2 * x + 1]).value)
  {
    ParsePair(Slice(h, 2 * x, 2 * x + 2))
  }

  /** The three components of a stripped colour, then alpha; None if one does not parse. */
  function Rgba(h: string, alpha: int): (r: Option<seq<int>>)
    ensures r.Some? <==> Component(h, 0).Some? && Component(h, 1).Some? && Component(h, 2).Some?
    ensures r.Some? ==> |r.value| == 4 && r.value[3] == alpha
    ensures r.Some? ==> forall x | 0 <= x < 3 ::
      0 <= r.value[x] < 256 && Some(r.value[x] as nat) == Component(h, x)
  {
    var c0, c1, c2 := Component(h, 0), Component(h, 1), Component(h, 2);
    if c0.Some? && c1.Some? && c2.Some? then
      var v := [c0.value, c1.value, c2.value, alpha];
      assert v[0] == c0.value && v[1] == c1.value && v[2] == c2.value;
      Some(v)
    else None
  }

  /**
    `hex_to_rgba(hex_color, alpha)`: leading '#' characters stripped, the
    pairs at offsets 0, 2 and 4 read as base-16 numbers, then alpha appended.
    None where a pair is empty or not hexadecimal (Python's ValueError).
  */
  function HexToRgba(hex: string, alpha: int := 120): (r: Option<seq<int>>)
    ensures var h := LStrip(hex, '#');
      r.Some? <==> Component(h, 0).Some? && Component(h, 1).Some? && Component(h, 2).Some?
    ensures r.Some? ==> |r.value| == 4 && r.value[3] == alpha
    ensures r.Some? ==> forall x | 0 <= x < 3 ::
      0 <= r.value[x] < 256 && Some(r.value[x] as nat) == Component(LStrip(hex, '#'), x)
  {
    Rgba(LStrip(hex, '#'), alpha)
  }

  /** The upper-case digit of a value below 16. */
  function HexChar(v: nat): (c: char)
    requires v < 16
    ensures HexDigit(c) == Some(v)
  {
    if v < 10 then ('0' as nat + v) as char else ('A' as nat + v - 10) as char
  }

  /** A colour component as two upper-case hexadecimal digits. */
  function HexPair(v: nat): (s: string)
    requires v < 256
    ensures |s| == 2 && ParsePair(s) == Some(v)
  {
    [HexChar(v / 16), HexChar(v % 16)]
  }

  /** `#RRGGBB` for three components. */
  function RgbToHex(red: nat, green: nat, blue: nat): (s: string)
    requires red < 256 && green < 256 && blue < 256
    ensures |s| == 7 && s[0] == '#'
  {
    "#" + HexPair(red) + HexPair(green) + HexPair(blue)
  }

  /** A '#' followed by six hexadecimal digits. */
  predicate WellFormedColor(hex: string)
  {
    |hex| == 7 && hex[0] == '#' && forall k | 1 <= k < 7 :: HexDigit(hex[k]).Some?
  }

  /** A well-formed colour parses, each component read from its own pair of digits. */
  lemma WellFormedColorParses(hex: string, alpha: int)
    requires WellFormedColor(hex)
    ensures HexToRgba(hex, alpha).Some?
    ensures forall x | 0 <= x < 3 ::
      HexToRgba(hex, alpha).value[x] == 16 * HexDigit(hex[2 * x + 1]).value + HexDigit(hex[2 * x + 2]).value
  {
    StripWellFormed(hex);
    forall x | 0 <= x < 3
      ensures Component(hex[1..], x) == Some(16 * HexDigit(hex[2 * x + 1]).value + HexDigit(hex[2 * x + 2]).value)
    {
      ComponentOfWellFormed(hex, x);
    }
  }

  /** Stripping a well-formed colour removes exactly its one '#'. */
  lemma StripWellFormed(hex: string)
    requires WellFormedColor(hex)
    ensures LStrip(hex, '#') == hex[1..]
  {
    var h := hex[1..];
    assert HexDigit(h[0]).Some?;
    assert LStrip(h, '#') == h;
  }

  /** Component x of a well-formed colour is read from digits 2x+1 and 2x+2. */
  lemma ComponentOfWellFormed(hex: string, x: nat)
    requires WellFormedColor(hex) && x < 3
    ensures Component(hex[1..], x) == Some(16 * HexDigit(hex[2 * x + 1]).value + HexDigit(hex[2 * x + 2]).value)
  {
    var p := Slice(hex[1..], 2 * x, 2 * x + 2);
    assert p == [hex[2 * x + 1], hex[2 * x + 2]];
    assert HexDigit(p[0]).Some? && HexDigit(p[1]).Some?;
  }

  /** Reading a written colour back gives its components and the alpha. */
  lemma HexToRgbaRoundTrip(red: nat, green: nat, blue: nat, alpha: int)
    requires red < 256 && green < 256 && blue < 256
    ensures HexToRgba(RgbToHex(red, green, blue), alpha) == Some([red, green, blue, alpha])
  {
    var s := RgbToHex(red, green, blue);
    assert s == ['#', HexChar(red / 16), HexChar(red % 16), HexChar(green / 16), HexChar(green % 16),
                 HexChar(blue / 16), HexChar(blue % 16)];
    assert WellFormedColor(s);
    WellFormedColorParses(s, alpha);
    var r := HexToRgba(s, alpha).value;
    assert r[0] == red by { assert r[0] == 16 * (red / 16) + red % 16; }
    assert r[1] == green by { assert r[1] == 16 * (green / 16) + green % 16; }
    assert r[2] == blue by { assert r[2] == 16 * (blue / 16) + blue % 16; }
    assert r == [red, green, blue, alpha];
  }

  /** Every sign's colour is a well-formed hex colour; the first is (198, 0, 0). */
  lemma ColorsParse()
    ensures forall s: Sign :: HexToRgba(Colors[s]).Some?
    ensures HexToRgba(Colors[0]) == Some([198, 0, 0, 120])
  {
    forall s: Sign
      ensures WellFormedColor(Colors[s])
    {
      ColorWellFormed(s);
    }
    forall s: Sign
      ensures HexToRgba(Colors[s]).Some?
    {
      WellFormedColorParses(Colors[s], 120);
    }
    AriesColor();
  }

  /** Aries' colour `#C60000` converts to (198, 0, 0) with the default alpha. */
  lemma AriesColor()
    ensures HexToRgba(Colors[0]) == Some([198, 0, 0, 120])
  {
    var c := Colors[0];
    ColorWellFormed(0);
    WellFormedColorParses(c, 120);
    assert c[1] == 'C' && c[2] == '6' && c[3] == '0' && c[4] == '0' && c[5] == '0' && c[6] == '0';
    assert HexDigit('C') == Some(12) && HexDigit('6') == Some(6) && HexDigit('0') == Some(0);
    var v := HexToRgba(c).value;
    assert v[0] == 16 * 12 + 6 && v[1] == 0 && v[2] == 0 && v[3] == 120;
    assert v == [198, 0, 0, 120];
  }

  lemma ColorWellFormed(s: Sign)
    ensures WellFormedColor(Colors[s])
  {
    var c := Colors[s];
    assert |c| == 7 && c[0] == '#';
    forall k | 1 <= k < 7
      ensures HexDigit(c[k]).Some?
    {
      assert '0' <= c[k] <= '9' || 'A' <= c[k] <= 'F';
    }
  }

  // The ascendant grid

  /** Grid size: latitudes -66..66 and longitudes -180..179, one degree apart. */
  const GridLatitudes := 133
  const GridLongitudes := 360
  const GridSize := GridLatitudes * GridLongitudes

  /** One grid entry: where, the ascendant there, its sign and the sign's colour. */
  datatype GridPoint = GridPoint(latitude: int, longitude: int, ascLon: Longitude, ascSign: Sign, color: string)

  /** The place of the n-th entry in latitude-major order. */
  function GridLatitude(n: nat): int { -66 + n / GridLongitudes }
  function GridLongitude(n: nat): int { -180 + n % GridLongitudes }

  /** The position in latitude-major order of a grid coordinate. */
  function GridIndex(lat: int, lon: int): (n: nat)
    requires -66 <= lat <= 66 && -180 <= lon < 180
    ensures n < GridSize
  {
    (lat + 66) * GridLongitudes + (lon + 180)
  }

  /** Grid index and grid coordinates are inverse, both ways round. */
  lemma GridIndexInverse(lat: int, lon: int)
    requires -66 <= lat <= 66 && -180 <= lon < 180
    ensures GridLatitude(GridIndex(lat, lon)) == lat && GridLongitude(GridIndex(lat, lon)) == lon
  {
    var n := GridIndex(lat, lon);
    assert n / GridLongitudes == lat + 66 && n % GridLongitudes == lon + 180 by {
      DivModUnique(n, lat + 66, lon + 180);
    }
  }

  lemma GridCoordinatesInverse(n: nat)
    requires n < GridSize
    ensures -66 <= GridLatitude(n) <= 66 && -180 <= GridLongitude(n) < 180
    ensures GridIndex(GridLatitude(n), GridLongitude(n)) == n
  {
  }

  lemma DivModUnique(n: nat, q: int, r: int)
    requires 0 <= r < GridLongitudes && n == q * GridLongitudes + r
    ensures n / GridLongitudes == q && n % GridLongitudes == r
  {
  }

  /**
    The entry for one coordinate: the ascendant the house oracle gives for
    the return moment there, `calculate_sign` of it, and that sign's colour.
  */
  function PointAt(jd: real, lat: int, lon: int, ascendant: (real, int, int) -> Longitude): (p: GridPoint)
    ensures p.latitude == lat && p.longitude == lon && p.ascLon == ascendant(jd, lat, lon)
    ensures p.ascSign as real * 30.0 <= p.ascLon < (p.ascSign + 1) as real * 30.0
    ensures p.color == Colors[p.ascSign]
  {
    var a := ascendant(jd, lat, lon);
    var s := CalculateSign(a);
    GridPoint(lat, lon, a, s, Colors[s])
  }

  /** The whole grid in latitude-major order. */
  function Grid(jd: real, ascendant: (real, int, int) -> Longitude): (g: seq<GridPoint>)
    ensures |g| == GridSize
  {
    seq(GridSize, n requires 0 <= n => PointAt(jd, GridLatitude(n), GridLongitude(n), ascendant))
  }

  /**
    The nested latitude/longitude loops of the page: one entry per
    coordinate, latitudes outermost.
  */
  method AscendantGrid(jd: real, ascendant: (real, int, int) -> Longitude) returns (results: seq<GridPoint>)
    ensures results == Grid(jd, ascendant)
  {
    results := [];
    var lat := -66;
    while lat < 67
      invariant -66 <= lat <= 67
      invariant |results| == (lat + 66) * GridLongitudes
      invariant forall n | 0 <= n < |results| :: results[n] == Grid(jd, ascendant)[n]
    {
      var lon := -180;
      while lon < 180
        invariant -180 <= lon <= 180
        invariant |results| == (lat + 66) * GridLongitudes + (lon + 180)
        invariant forall n | 0 <= n < |results| :: results[n] == Grid(jd, ascendant)[n]
      {
        var ascLon := ascendant(jd, lat, lon);
        var ascSign := CalculateSign(ascLon);
        GridIndexInverse(lat, lon);
        results := results + [GridPoint(lat, lon, ascLon, ascSign, Colors[ascSign])];
        lon := lon + 1;
      }
      lat := lat + 1;
    }
  }

  /**
    Every coordinate of the grid appears, at its latitude-major position, with
    the ascendant computed for exactly that place; and the entries run in
    latitude-major order.
  */
  lemma GridCovers(jd: real, ascendant: (real, int, int) -> Longitude, lat: int, lon: int)
    requires -66 <= lat <= 66 && -180 <= lon < 180
    ensures Grid(jd, ascendant)[GridIndex(lat, lon)] == PointAt(jd, lat, lon, ascendant)
  {
    GridIndexInverse(lat, lon);
  }

  lemma GridOrdered(jd: real, ascendant: (real, int, int) -> Longitude, m: nat, n: nat)
    requires m < n < GridSize
    ensures var g := Grid(jd, ascendant);
      g[m].latitude < g[n].latitude
      || (g[m].latitude == g[n].latitude && g[m].longitude < g[n].longitude)
  {
    GridCoordinatesInverse(m);
    GridCoordinatesInverse(n);
  }

  /** Every grid colour converts to RGBA. */
  lemma GridColorsParse(jd: real, ascendant: (real, int, int) -> Longitude, n: nat)
    requires n < GridSize
    ensures HexToRgba(Grid(jd, ascendant)[n].color).Some?
  {
    ColorsParse();
  }

  // The legend

  /** One legend item: a colour swatch and a sign name. */
  datatype LegendEntry = LegendEntry(color: string, sign: string)

  /** `zip(colors, signs)`: pairs up to the shorter of the two. */
  function Zip(colors: seq<string>, names: seq<string>): (z: seq<LegendEntry>)
    ensures |z| == if |colors| <= |names| then |colors| else |names|
    ensures forall i | 0 <= i < |z| :: z[i] == LegendEntry(colors[i], names[i])
  {
    if |colors| == 0 || |names| == 0 then []
    else [LegendEntry(colors[0], names[0])] + Zip(colors[1..], names[1..])
  }

  /** The items the legend places in column c: those whose position is c modulo 4. */
  function Column(z: seq<LegendEntry>, c: nat): seq<LegendEntry>
  {
    if |z| == 0 then []
    else Column(z[..|z| - 1], c) + (if (|z| - 1) % 4 == c then [z[|z| - 1]] else [])
  }

  /** Column c holds items c, c + 4, c + 8, ... in order. */
  lemma {:induction false} ColumnAt(z: seq<LegendEntry>, c: nat)
    requires c < 4
    ensures |Column(z, c)| == (|z| - c + 3) / 4
    ensures forall k | 0 <= k < |Column(z, c)| :: c + 4 * k < |z| && Column(z, c)[k] == z[c + 4 * k]
  {
    if |z| > 0 {
      var init := z[..|z| - 1];
      ColumnAt(init, c);
      ColumnCount(|z|, c);
      var col, prev := Column(z, c), Column(init, c);
      assert col == prev + (if (|z| - 1) % 4 == c then [z[|z| - 1]] else []);
      forall k | 0 <= k < |col|
        ensures c + 4 * k < |z| && col[k] == z[c + 4 * k]
      {
        if k < |prev| {
          assert col[k] == prev[k] == init[c + 4 * k];
        }
      }
    }
  }

  /** How the column count grows when item n - 1 is placed. */
  lemma ColumnCount(n: nat, c: nat)
    requires 0 < n && c < 4
    ensures (n - 1) % 4 == c ==> (n - c + 3) / 4 == (n - 1 - c + 3) / 4 + 1 && c + 4 * ((n - 1 - c + 3) / 4) == n - 1
    ensures (n - 1) % 4 != c ==> (n - c + 3) / 4 == (n - 1 - c + 3) / 4
  {
  }

  /**
    The legend loop: item i goes to column `i % 4`.
  */
  method Legend(colors: seq<string>, names: seq<string>) returns (columns: seq<seq<LegendEntry>>)
    ensures |columns| == 4
    ensures forall c | 0 <= c < 4 :: columns[c] == Column(Zip(colors, names), c)
  {
    var z := Zip(colors, names);
    columns := [[], [], [], []];
    var i := 0;
    while i < |z|
      invariant 0 <= i <= |z|
      invariant |columns| == 4
      invariant forall c | 0 <= c < 4 :: columns[c] == Column(z[..i], c)
    {
      assert z[..i + 1][..i] == z[..i];
      columns := columns[i % 4 := columns[i % 4] + [z[i]]];
      i := i + 1;
    }
    assert z[..i] == z;
  }

  /** With the twelve signs, each column holds three: signs c, c + 4 and c + 8. */
  lemma SignLegend(c: nat)
    requires c < 4
    ensures var col := Column(Zip(Colors, SignNames), c);
      |col| == 3 && forall k | 0 <= k < 3 :: col[k] == LegendEntry(Colors[c + 4 * k], SignNames[c + 4 * k])
  {
    ColumnAt(Zip(Colors, SignNames), c);
  }

  // The whole page

  /**
    Pressing Run: the birth instant (date, hour and minute) as a Julian day,
    the Sun's longitude then, the Julian day of 1 January of the chosen year,
    the Sun's return to its birth longitude from there, the ascendant grid for
    that moment with RGBA colours, and the legend. `sunLongitude` stands for
    `swe.calc_ut(jd, 0)[0][0]`, `solcross` for `swe.solcross` and `ascendant`
    for `swe.houses(jd, lat, lon)[0][0]`.
  */
  method RunSolarRevolution(year: int, month: int, day: int, hour: int, minute: int, revolutionYear: int,
                            julday: (int, int, int, real) -> real,
                            sunLongitude: real -> real,
                            solcross: (real, real) -> real,
                            ascendant: (real, int, int) -> Longitude)
    returns (returnJd: real, points: seq<GridPoint>, rgba: seq<seq<int>>, legend: seq<seq<LegendEntry>>)
    ensures var birthJd := julday(year, month, day, HourFraction(hour, minute, 0, 0));
      returnJd == solcross(sunLongitude(birthJd), julday(revolutionYear, 1, 1, 0.0))
    ensures points == Grid(returnJd, ascendant)
    ensures |rgba| == |points|
    ensures forall n | 0 <= n < |points| :: Some(rgba[n]) == HexToRgba(points[n].color)
    ensures |legend| == 4 && forall c | 0 <= c < 4 :: legend[c] == Column(Zip(Colors, SignNames), c)
  {
    var birthJd := DatetimeToJulday(DateTime(year, month, day, hour, minute, 0, 0), julday);
    var sunLong := sunLongitude(birthJd);
    var yearStartJd := DatetimeToJulday(DateTime(revolutionYear, 1, 1, 0, 0, 0, 0), julday);
    returnJd := solcross(sunLong, yearStartJd);
    points := AscendantGrid(returnJd, ascendant);
    forall n | 0 <= n < |points|
      ensures HexToRgba(points[n].color).Some?
    {
      GridColorsParse(returnJd, ascendant, n);
    }
    rgba := seq(|points|, n requires 0 <= n < |points| => HexToRgba(points[n].color).value);
    legend := Legend(Colors, SignNames);
  }
}

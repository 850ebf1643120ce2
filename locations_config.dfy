/** The occupant locations file of the vision samples
    (vision/shared/LocationsConfig.h): a header line, then one line per
    location with its name and the corners of its bounding box; every name
    must be one of the given location names, and a later line for the same
    location replaces an earlier one. */
module Locations {
  import opened Wrappers
  import Decimal

  /** The SDK's occupant locations: the nine the help text names, and UNKNOWN. */
  datatype OccupantLocation = Unknown
                            | FirstRowDriverSide | FirstRowCenter | FirstRowPassengerSide
                            | SecondRowLeft | SecondRowCenter | SecondRowRight
                            | ThirdRowLeft | ThirdRowCenter | ThirdRowRight

  /** The order in which a std::map keyed by location visits its keys. */
  const LocationOrder: seq<OccupantLocation> :=
    [Unknown, FirstRowDriverSide, FirstRowCenter, FirstRowPassengerSide,
     SecondRowLeft, SecondRowCenter, SecondRowRight, ThirdRowLeft, ThirdRowCenter, ThirdRowRight]

  datatype Point = Point(x: int, y: int)

  /** BoundingBox({ { tl_x, tl_y }, { br_x, br_y } }). */
  datatype Box = Box(topLeft: Point, bottomRight: Point)

  /** The position of the first c in s, or |s| when there is none. */
  function IndexOf(s: string, c: char): (i: nat)
    ensures i <= |s|
    ensures i < |s| ==> s[i] == c
    ensures forall j :: 0 <= j < i ==> s[j] != c
  {
    if s == [] then 0
    else if s[0] == c then 0
    else 1 + IndexOf(s[1..], c)
  }

  /** getline(ss, s_location, ','): the text before the first comma, or the
      whole line when it has none. */
  function Name(line: string): string {
    line[..IndexOf(line, ',')]
  }

  /** What the string stream still holds after the name and its comma. */
  function Rest(line: string): string {
    var i := IndexOf(line, ',');
    if i < |line| then line[i + 1..] else ""
  }

  /** The line is its name, a comma and the rest, when it has a comma. */
  lemma NameRest(line: string)
    ensures ',' !in Name(line)
    ensures ',' in line ==> line == Name(line) + "," + Rest(line)
    ensures ',' !in line ==> Name(line) == line && Rest(line) == ""
  {
    var i := IndexOf(line, ',');
    if ',' in line {
      assert i < |line| by {
        var j :| 0 <= j < |line| && line[j] == ',';
      }
      assert line == line[..i] + [line[i]] + line[i + 1..];
    }
  }

  /** The comma-separated fields of s. */
  function Fields(s: string): (parts: seq<string>)
    ensures |parts| >= 1
    decreases |s|
  {
    var i := IndexOf(s, ',');
    if i == |s| then [s] else [s[..i]] + Fields(s[i + 1..])
  }

  /** The fields joined back with commas. */
  function Join(parts: seq<string>): string
    requires |parts| >= 1
  {
    if |parts| == 1 then parts[0] else parts[0] + "," + Join(parts[1..])
  }

  /** Splitting at the commas loses nothing. */
  lemma {:induction false} FieldsJoin(s: string)
    ensures Join(Fields(s)) == s
    decreases |s|
  {
    var i := IndexOf(s, ',');
    if i < |s| {
      FieldsJoin(s[i + 1..]);
      assert s == s[..i] + "," + s[i + 1..];
    }
  }

  /** tl_x, tl_y, br_x and br_y, in that order, as whole numbers. */
  function Coords(rest: string): (box: Option<Box>)
    ensures box.Some? ==> |Fields(rest)| == 4
  {
    var f := Fields(rest);
    if |f| != 4 then None
    else
      var tlX, tlY, brX, brY := Decimal.ParseInt(f[0]), Decimal.ParseInt(f[1]),
                                Decimal.ParseInt(f[2]), Decimal.ParseInt(f[3]);
      if tlX.Some? && tlY.Some? && brX.Some? && brY.Some? then
        Some(Box(Point(tlX.value, tlY.value), Point(brX.value, brY.value)))
      else None
  }

  /** A box written the way the help message shows reads back as itself. */
  lemma CoordsRoundTrip(b: Box)
    ensures Coords(CoordsText(b)) == Some(b)
  {
    NoComma(b.topLeft.x);
    NoComma(b.topLeft.y);
    NoComma(b.bottomRight.x);
    NoComma(b.bottomRight.y);
    FieldsFour(Decimal.IntToString(b.topLeft.x), Decimal.IntToString(b.topLeft.y),
               Decimal.IntToString(b.bottomRight.x), Decimal.IntToString(b.bottomRight.y));
    Decimal.IntToStringRoundTrip(b.topLeft.x);
    Decimal.IntToStringRoundTrip(b.topLeft.y);
    Decimal.IntToStringRoundTrip(b.bottomRight.x);
    Decimal.IntToStringRoundTrip(b.bottomRight.y);
  }

  /** The four corners of a box, comma-separated, as in the help message. */
  function CoordsText(b: Box): string {
    Decimal.IntToString(b.topLeft.x) + ("," + (Decimal.IntToString(b.topLeft.y) + ("," +
    (Decimal.IntToString(b.bottomRight.x) + ("," + Decimal.IntToString(b.bottomRight.y))))))
  }

  lemma FieldsFour(a: string, c: string, d: string, e: string)
    requires ',' !in a && ',' !in c && ',' !in d && ',' !in e
    ensures Fields(a + ("," + (c + ("," + (d + ("," + e)))))) == [a, c, d, e]
  {
    var cde := c + ("," + (d + ("," + e)));
    FieldsThree(c, d, e);
    FieldsOfJoined(a, cde);
    ConsDisplay(a, [c, d, e]);
  }

  lemma FieldsThree(c: string, d: string, e: string)
    requires ',' !in c && ',' !in d && ',' !in e
    ensures Fields(c + ("," + (d + ("," + e)))) == [c, d, e]
  {
    var de := d + ("," + e);
    FieldsOfSingle(e);
    FieldsOfJoined(d, e);
    FieldsOfJoined(c, de);
    ConsDisplay(d, [e]);
    ConsDisplay(c, [d, e]);
  }

  lemma ConsDisplay<T>(x: T, xs: seq<T>)
    ensures |xs| == 1 ==> [x] + xs == [x, xs[0]]
    ensures |xs| == 2 ==> [x] + xs == [x, xs[0], xs[1]]
    ensures |xs| == 3 ==> [x] + xs == [x, xs[0], xs[1], xs[2]]
  {
  }

  lemma NoComma(i: int)
    ensures ',' !in Decimal.IntToString(i)
  {
    var s := Decimal.IntToString(i);
    if i >= 0 {
      assert Decimal.AllDigits(s);
    } else {
      assert s[1..] == Decimal.NatToString(-i);
      assert Decimal.AllDigits(s[1..]);
      forall j | 0 <= j < |s|
        ensures s[j] != ','
      {
        if j > 0 {
          assert s[j] == s[1..][j - 1];
        }
      }
    }
  }

  lemma {:induction false} IndexOfJoined(a: string, b: string)
    requires ',' !in a
    ensures IndexOf(a + ("," + b), ',') == |a|
    decreases |a|
  {
    if a != [] {
      assert (a + ("," + b))[1..] == a[1..] + ("," + b);
      IndexOfJoined(a[1..], b);
    }
  }

  lemma FieldsOfJoined(a: string, b: string)
    requires ',' !in a
    ensures Fields(a + ("," + b)) == [a] + Fields(b)
  {
    var s := a + ("," + b);
    IndexOfJoined(a, b);
    assert s[..|a|] == a;
    assert s[|a| + 1..] == b;
  }

  lemma FieldsOfSingle(a: string)
    requires ',' !in a
    ensures Fields(a) == [a]
  {
  }

  /** The location whose name is s: the first key, in key order, that the
      names map to s, or Unknown when there is none. */
  function FindIn(names: map<OccupantLocation, string>, s: string, order: seq<OccupantLocation>): OccupantLocation
  {
    if order == [] then Unknown
    else if order[0] in names && names[order[0]] == s then order[0]
    else FindIn(names, s, order[1..])
  }

  function Lookup(names: map<OccupantLocation, string>, s: string): OccupantLocation {
    FindIn(names, s, LocationOrder)
  }

  lemma {:induction false} FindInSound(names: map<OccupantLocation, string>, s: string, order: seq<OccupantLocation>)
    ensures FindIn(names, s, order) != Unknown ==>
              FindIn(names, s, order) in names && names[FindIn(names, s, order)] == s
    ensures FindIn(names, s, order) == Unknown && Unknown !in order ==>
              forall k :: k in order && k in names ==> names[k] != s
  {
    if order != [] && !(order[0] in names && names[order[0]] == s) {
      FindInSound(names, s, order[1..]);
    }
  }

  /** Every location but UNKNOWN comes after UNKNOWN in key order. */
  lemma InOrder(k: OccupantLocation)
    requires k != Unknown
    ensures k in LocationOrder[1..]
  {
    var rest := LocationOrder[1..];
    match k
    case FirstRowDriverSide => assert rest[0] == k;
    case FirstRowCenter => assert rest[1] == k;
    case FirstRowPassengerSide => assert rest[2] == k;
    case SecondRowLeft => assert rest[3] == k;
    case SecondRowCenter => assert rest[4] == k;
    case SecondRowRight => assert rest[5] == k;
    case ThirdRowLeft => assert rest[6] == k;
    case ThirdRowCenter => assert rest[7] == k;
    case ThirdRowRight => assert rest[8] == k;
  }

  /** A line's location is Unknown, so that the program exits, exactly when
      no location has that name or UNKNOWN itself has it (UNKNOWN comes
      first in key order); otherwise the location carries that name. */
  lemma LookupExits(names: map<OccupantLocation, string>, s: string)
    ensures Lookup(names, s) == Unknown <==>
              (Unknown in names && names[Unknown] == s) || (forall k :: k in names ==> names[k] != s)
    ensures Lookup(names, s) != Unknown ==> Lookup(names, s) in names && names[Lookup(names, s)] == s
  {
    FindInSound(names, s, LocationOrder[1..]);
    assert Lookup(names, s) == if Unknown in names && names[Unknown] == s then Unknown
                               else FindIn(names, s, LocationOrder[1..]);
    forall k | k in names && k != Unknown
      ensures k in LocationOrder[1..]
    {
      InOrder(k);
    }
  }

  /** The for loop over location_names, leaving at the first key whose name
      matches. */
  method FindLocation(names: map<OccupantLocation, string>, s: string) returns (loc: OccupantLocation)
    ensures loc == Lookup(names, s)
  {
    loc := Unknown;
    var i := 0;
    while i < |LocationOrder|
      invariant 0 <= i <= |LocationOrder|
      invariant Lookup(names, s) == FindIn(names, s, LocationOrder[i..])
    {
      var key := LocationOrder[i];
      if key in names && names[key] == s {
        loc := key;
        return;
      }
      assert LocationOrder[i..][1..] == LocationOrder[i + 1..];
      i := i + 1;
    }
  }

  /** A data line as the loop reads it: the location its name resolves to
      and the box its coordinates give, if they are four whole numbers. */
  datatype Parsed = Parsed(loc: OccupantLocation, box: Option<Box>)

  function Parse(names: map<OccupantLocation, string>, line: string): Parsed {
    Parsed(Lookup(names, Name(line)), Coords(Rest(line)))
  }

  /** The coordinates can be read wherever the program reads them, that is
      after a name it accepts. */
  predicate Readable(p: Parsed) {
    p.loc != Unknown ==> p.box.Some?
  }

  predicate AllReadable(ps: seq<Parsed>) {
    forall i :: 0 <= i < |ps| ==> Readable(ps[i])
  }

  /** The entries after the given data lines, or None once a line names no
      location and the program exits with status 1. */
  function Entries(ps: seq<Parsed>): Option<map<OccupantLocation, Box>>
    requires AllReadable(ps)
    decreases |ps|
  {
    if ps == [] then Some(map[])
    else
      var last := ps[|ps| - 1];
      assert Readable(last);
      match Entries(ps[..|ps| - 1])
      case None => None
      case Some(m) => if last.loc == Unknown then None else Some(m[last.loc := last.box.value])
  }

  /** The program exits exactly when some data line names no location. */
  lemma {:induction false} EntriesExit(ps: seq<Parsed>)
    requires AllReadable(ps)
    ensures Entries(ps).None? <==> exists i :: 0 <= i < |ps| && ps[i].loc == Unknown
    decreases |ps|
  {
    if ps != [] {
      var prefix := ps[..|ps| - 1];
      assert forall i :: 0 <= i < |prefix| ==> prefix[i] == ps[i];
      EntriesExit(prefix);
    }
  }

  /** Otherwise the map holds a location exactly when a line names it. */
  lemma {:induction false} EntriesDomain(ps: seq<Parsed>)
    requires AllReadable(ps)
    requires Entries(ps).Some?
    ensures forall loc :: loc in Entries(ps).value <==> exists i :: 0 <= i < |ps| && ps[i].loc == loc
    decreases |ps|
  {
    if ps != [] {
      var prefix := ps[..|ps| - 1];
      assert forall i :: 0 <= i < |prefix| ==> prefix[i] == ps[i];
      EntriesDomain(prefix);
    }
  }

  /** Line i is the last of the lines that names its location. */
  predicate LastFor(ps: seq<Parsed>, i: nat)
    requires i < |ps|
  {
    forall j :: i < j < |ps| ==> ps[j].loc != ps[i].loc
  }

  /** The box of a location is that of the last line naming it. */
  lemma {:induction false} EntriesLastWins(ps: seq<Parsed>, i: nat)
    requires AllReadable(ps)
    requires Entries(ps).Some?
    requires i < |ps| && LastFor(ps, i)
    ensures ps[i].box.Some? && ps[i].loc in Entries(ps).value
    ensures Entries(ps).value[ps[i].loc] == ps[i].box.value
    decreases |ps|
  {
    var prefix := ps[..|ps| - 1];
    assert forall j :: 0 <= j < |prefix| ==> prefix[j] == ps[j];
    EntriesExit(ps);
    assert Readable(ps[i]);
    if i < |prefix| {
      assert LastFor(prefix, i);
      EntriesLastWins(prefix, i);
    }
  }

  /** Every key of the map is a named location other than UNKNOWN. */
  lemma EntriesKeys(names: map<OccupantLocation, string>, rows: seq<string>)
    requires AllReadable(ParseAll(names, rows))
    requires Entries(ParseAll(names, rows)).Some?
    ensures forall loc :: loc in Entries(ParseAll(names, rows)).value ==> loc != Unknown && loc in names
  {
    var ps := ParseAll(names, rows);
    EntriesDomain(ps);
    EntriesExit(ps);
    forall loc | loc in Entries(ps).value
      ensures loc != Unknown && loc in names
    {
      var i :| 0 <= i < |ps| && ps[i].loc == loc;
      LookupExits(names, Name(rows[i]));
    }
  }

  /** Every data line, parsed. */
  function ParseAll(names: map<OccupantLocation, string>, rows: seq<string>): (ps: seq<Parsed>)
    ensures |ps| == |rows|
    ensures forall i :: 0 <= i < |rows| ==> ps[i] == Parse(names, rows[i])
  {
    seq(|rows|, i requires 0 <= i < |rows| => Parse(names, rows[i]))
  }

  /** The data lines of the file: all but the header, if there is one. */
  function DataRows(lines: seq<string>): seq<string> {
    if lines == [] then [] else lines[1..]
  }

  /** Once a line has ended the program, no later line matters. */
  lemma {:induction false} ExitStays(ps: seq<Parsed>, k: nat)
    requires AllReadable(ps)
    requires k <= |ps|
    requires AllReadable(ps[..k]) && Entries(ps[..k]).None?
    ensures Entries(ps).None?
  {
    EntriesExit(ps[..k]);
    var i :| 0 <= i < k && ps[..k][i].loc == Unknown;
    EntriesExit(ps);
  }

  class LocationsConfig {
    var locations: map<OccupantLocation, Box>
    /** The status the program exits with from inside the constructor. */
    var exitStatus: Option<int>

    /** Reads the lines of the locations file (none when it does not open):
        the first is the header; each later one adds or replaces the box of
        the location it names, and one that names no location ends the
        program with status 1. */
    constructor (lines: seq<string>, names: map<OccupantLocation, string>)
      requires AllReadable(ParseAll(names, DataRows(lines)))
      ensures Entries(ParseAll(names, DataRows(lines))).None? ==> exitStatus == Some(1)
      ensures Entries(ParseAll(names, DataRows(lines))).Some? ==>
                exitStatus == None && locations == Entries(ParseAll(names, DataRows(lines))).value
    {
      locations := map[];
      exitStatus := None;
      new;
      var rows := DataRows(lines);
      ghost var ps := ParseAll(names, rows);
      var k := 0;
      while k < |rows|
        invariant 0 <= k <= |rows|
        invariant AllReadable(ps[..k])
        invariant Entries(ps[..k]) == Some(locations)
        invariant exitStatus == None
      {
        assert ps[..k + 1][..k] == ps[..k];
        assert ps[..k + 1][k] == ps[k];
        var line := rows[k];
        var location := Name(line);
        var loc := FindLocation(names, location);
        if loc == Unknown {
          exitStatus := Some(1);
          ExitStays(ps, k + 1);
          return;
        }
        assert Readable(ps[k]);
        var box := Coords(Rest(line)).value;
        locations := locations[loc := box];
        k := k + 1;
      }
      assert ps[..k] == ps;
    }
  }
}

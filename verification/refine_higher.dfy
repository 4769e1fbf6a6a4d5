/** `05_refine_higher.py`: the higher-education locations are joined to their
    geocoded coordinates on a (postcode, house number) key, given a status,
    cleared of duplicates, reduced to one record per coordinate pair and
    given the temporal analysis columns. */
module RefineHigher {
  import opened Common
  import opened Text
  import opened Dates
  import opened Temporal
  import opened Joins
  import Geocoding

  // ------------------------------------------------------------ word boundaries

  /** `\b` before a word character at `i`: the string starts there or a
      non-word character precedes it. */
  predicate BoundaryBefore(s: string, i: int)
    requires 0 <= i <= |s|
  {
    i == 0 || !IsWordChar(s[i - 1])
  }

  /** `\b` after a word character ending at `j`. */
  predicate BoundaryAfter(s: string, j: int)
    requires 0 <= j <= |s|
  {
    j == |s| || !IsWordChar(s[j])
  }

  // ---------------------------------------------------- extract_house_number

  /** `\b\d+\b` matches `s[k..j]`. A word boundary after the digits rules out
      a further digit, so the run is maximal and `k` determines `j`. */
  predicate NumberAt(s: string, k: int, j: int) {
    0 <= k < j <= |s| && BoundaryBefore(s, k) && BoundaryAfter(s, j)
    && forall m :: k <= m < j ==> IsDigit(s[m])
  }

  /** No match of `\b\d+\b` starts in `[from, to)`. */
  predicate NoNumberIn(s: string, from: int, to: int) {
    forall k, j :: from <= k < to && k < j <= |s| ==> !NumberAt(s, k, j)
  }

  /** The leftmost match of `\b\d+\b` starting at or after `i`. A run of digits
      that fails the boundary after it is skipped whole: no position inside it
      has a boundary before it. */
  function FindNumber(s: string, i: nat): (r: Option<(nat, nat)>)
    requires i <= |s|
    ensures r.Some? ==> i <= r.value.0 && NumberAt(s, r.value.0, r.value.1) && NoNumberIn(s, i, r.value.0)
    ensures r.None? ==> NoNumberIn(s, i, |s| + 1)
    decreases |s| - i
  {
    if i == |s| then None
    else if IsDigit(s[i]) && BoundaryBefore(s, i) then
      var j := RunEnd(s, i);
      if BoundaryAfter(s, j) then
        assert NumberAt(s, i, j);
        Some((i, j))
      else
        var r := FindNumber(s, j);
        assert NoNumberIn(s, i, j) by {
          forall k, j' | i <= k < j && k < j' <= |s| ensures !NumberAt(s, k, j') {
            if k > i {
              assert !BoundaryBefore(s, k);
            } else if j' > j {
              assert !IsDigit(s[j]);
            }
          }
        }
        r
    else
      var r := FindNumber(s, i + 1);
      assert NoNumberIn(s, i, i + 1);
      r
  }

  /** `extract_house_number`: '' for a null address or when nothing matches,
      otherwise the leftmost digits standing alone as a word. */
  function ExtractHouseNumber(address: Option<string>): (r: string)
    ensures AllDigits(r)
    ensures address.None? ==> r == ""
    ensures address.Some? ==> (r == "" <==> NoNumberIn(address.value, 0, |address.value| + 1))
    ensures r != "" ==> exists k, j :: NumberAt(address.value, k, j) && NoNumberIn(address.value, 0, k) && r == address.value[k..j]
  {
    if address.None? then ""
    else
      match FindNumber(address.value, 0)
      case None => ""
      case Some((k, j)) => address.value[k..j]
  }

  /** A number glued to a letter is no house number: `"12A"` gives ''. */
  lemma HouseNumberNeedsBoundary()
    ensures ExtractHouseNumber(Some("12A")) == ""
  {
    var s := "12A";
    forall k, j | 0 <= k < |s| + 1 && k < j <= |s| ensures !NumberAt(s, k, j) {
      if k == 1 {
        assert !BoundaryBefore(s, k);
      } else if k == 0 && j == 3 {
        assert !IsDigit(s[2]);
      }
    }
  }

  // --------------------------------------------------------- extract_postcode

  /** `\b\d{4}[A-Z]{2}\b` matches at `k`. */
  predicate PostcodeAt(s: string, k: int) {
    0 <= k && k + 6 <= |s| && BoundaryBefore(s, k) && BoundaryAfter(s, k + 6)
    && IsDigit(s[k]) && IsDigit(s[k + 1]) && IsDigit(s[k + 2]) && IsDigit(s[k + 3])
    && IsUpper(s[k + 4]) && IsUpper(s[k + 5])
  }

  /** The leftmost match position at or after `i`. */
  function FindPostcode(s: string, i: nat): (r: Option<nat>)
    ensures r.Some? ==> i <= r.value && PostcodeAt(s, r.value)
    ensures forall k :: i <= k && (r.None? || k < r.value) ==> !PostcodeAt(s, k)
    decreases if i <= |s| then |s| - i else 0
  {
    if i + 6 > |s| then None
    else if PostcodeAt(s, i) then Some(i)
    else FindPostcode(s, i + 1)
  }

  /** `extract_postcode`: '' for a null address or when nothing matches,
      otherwise the leftmost match, lower-cased. */
  function ExtractPostcode(address: Option<string>): (r: string)
    ensures r == "" || (|r| == 6 && AllDigits(r[..4]) && IsLower(r[4]) && IsLower(r[5]))
    ensures address.None? ==> r == ""
    ensures address.Some? ==> (r == "" <==> forall k :: !PostcodeAt(address.value, k))
    ensures r != "" ==>
      exists k :: PostcodeAt(address.value, k) && (forall m :: m < k ==> !PostcodeAt(address.value, m)) && r == Lower(address.value[k..k + 6])
  {
    if address.None? then ""
    else
      var s := address.value;
      match FindPostcode(s, 0)
      case None => ""
      case Some(k) =>
        var r := Lower(s[k..k + 6]);
        assert forall m :: 0 <= m < 4 ==> r[m] == s[k + m];
        r
  }

  // ----------------------------------------------------------- clean_postcode

  /** `clean_postcode`: '' for null, otherwise stripped, spaces removed, lower-cased. */
  function CleanPostcode(postcode: Option<string>): (r: string)
    ensures postcode.None? ==> r == ""
    ensures NoUpper(r) && forall i :: 0 <= i < |r| ==> r[i] != ' '
    ensures r == [] || (!IsSpace(r[0]) && !IsSpace(r[|r| - 1]))
  {
    if postcode.None? then ""
    else
      var t := Strip(postcode.value);
      if t == [] then ""
      else
        RemoveSpacesKeepsEnds(t);
        Lower(RemoveSpaces(t))
  }

  /** Cleaning a cleaned postcode changes nothing. */
  lemma CleanPostcodeIdempotent(postcode: Option<string>)
    ensures CleanPostcode(Some(CleanPostcode(postcode))) == CleanPostcode(postcode)
  {
    var r := CleanPostcode(postcode);
    StripIdentity(r);
    RemoveSpacesIdentity(r);
    LowerIdentity(r);
  }

  /** A postcode written as in the register, four digits and two capitals... */
  predicate CompactPostcode(p: string) {
    |p| == 6 && IsDigit(p[0]) && IsDigit(p[1]) && IsDigit(p[2]) && IsDigit(p[3]) && IsUpper(p[4]) && IsUpper(p[5])
  }

  /** ... is cleaned to its lower-case form ... */
  lemma CleanCompactPostcode(p: string)
    requires CompactPostcode(p)
    ensures CleanPostcode(Some(p)) == Lower(p)
  {
    assert !IsSpace(p[0]) && !IsSpace(p[5]);
    StripIdentity(p);
    assert forall i :: 0 <= i < |p| ==> p[i] != ' ' by {
      assert forall i :: 0 <= i < 4 ==> IsDigit(p[i]);
    }
    RemoveSpacesIdentity(p);
  }

  /** ... and so is the same postcode written with a space, `1234 AB`, or
      with any letters in lower case: spacing and case do not change the key. */
  lemma CleanSpacedPostcode(p: string, q: string)
    requires CompactPostcode(p)
    requires |q| == 6 && Lower(q) == Lower(p)
    ensures CleanPostcode(Some(q[..4] + " " + q[4..])) == Lower(p)
  {
    var spaced := q[..4] + " " + q[4..];
    assert forall i :: 0 <= i < 6 ==> LowerChar(q[i]) == LowerChar(p[i]);
    assert forall i :: 0 <= i < 6 ==> q[i] != ' ' && !IsSpace(q[i]) by {
      forall i | 0 <= i < 6 ensures q[i] != ' ' && !IsSpace(q[i]) {
        assert LowerChar(q[i]) == LowerChar(p[i]);
      }
    }
    assert spaced[0] == q[0] && spaced[6] == q[5];
    StripIdentity(spaced);
    RemoveInnerSpace(q[..4], q[4..]);
    assert q[..4] + q[4..] == q;
  }

  /** ... which is the key `extract_postcode` finds in an address made of it. */
  lemma ExtractCompactPostcode(p: string)
    requires CompactPostcode(p)
    ensures ExtractPostcode(Some(p)) == Lower(p)
  {
    assert FindPostcode(p, 0) == Some(0) by {
      assert PostcodeAt(p, 0);
    }
    assert p[0..6] == p;
  }

  /** The key of a geocoded address is the first postcode standing alone as a word. */
  lemma ExtractPostcodeExample()
    ensures ExtractPostcode(Some("5, 1234AB")) == "1234ab"
  {
    var s := "5, 1234AB";
    assert FindPostcode(s, 3) == Some(3) by {
      assert PostcodeAt(s, 3);
    }
    assert FindPostcode(s, 0) == FindPostcode(s, 3) by {
      assert !IsDigit(s[1]) && !IsDigit(s[2]);
    }
    assert Lower(s[3..9]) == "1234ab" by {
      assert s[3..9] == "1234AB";
      assert LowerChar('A') == 'a' && LowerChar('B') == 'b';
    }
  }

  // ------------------------------------------------------ categorize_facility

  /** `categorize_facility`: the label for HBO, WO and LOC, otherwise 'Other'. */
  function FacilityType(code: Option<string>): (name: string)
    ensures name != "Other" <==> code.Some? && code.value in {"HBO", "WO", "LOC"}
  {
    if code == Some("HBO") then "University of Applied Sciences"
    else if code == Some("WO") then "Research University"
    else if code == Some("LOC") then "Higher Education Branch Location"
    else "Other"
  }

  /** The three labels are different, so the label determines the code. */
  lemma FacilityTypeInjective(a: Option<string>, b: Option<string>)
    requires FacilityType(a) != "Other" && FacilityType(a) == FacilityType(b)
    ensures a == b
  {
  }

  // ------------------------------------------------------------- the merge

  /** A row of the higher-education locations file as read: the columns the
      script names, its two date cells as `pd.to_datetime` sees them, and the
      remaining columns, which take part in `drop_duplicates`. */
  datatype Location = Location(
    nrAdministratie: Option<string>,
    codeFunctie: Option<string>,
    codeSoort: Option<string>,
    naamVolledig: Option<string>,
    fullAddress: Option<string>,
    postcodeVest: Option<string>,
    naamPlaats: Option<string>,
    provincie: Option<string>,
    codeStandRecord: Option<string>,
    dtInBedrijf: DateText,
    dtUitBedrijf: DateText,
    other: seq<Option<string>>)

  /** The merge key `(postcode_cleaned, house_number)`. */
  type JoinKey = (string, string)

  /** The key of a higher-education row: its cleaned postcode and the house
      number found in its address. */
  function HigherKey(l: Location): JoinKey {
    (CleanPostcode(l.postcodeVest), ExtractHouseNumber(l.fullAddress))
  }

  /** The key of a geocoded row: postcode and house number, both found in its address. */
  function GeocodedKey(g: Geocoding.GeoRow): JoinKey {
    (ExtractPostcode(Some(g.fullAddress)), ExtractHouseNumber(Some(g.fullAddress)))
  }

  /** A row of `merged_data` after the merge: the higher-education row and
      the coordinates of the geocoded row it was paired with (null when none
      was). Its key columns are `HigherKey(location)`. */
  datatype Joined = Joined(location: Location, latitude: Option<real>, longitude: Option<real>)

  function JoinedRow(pair: (Location, Option<Geocoding.GeoRow>)): Joined {
    Joined(pair.0,
      if pair.1.Some? then pair.1.value.latitude else None,
      if pair.1.Some? then pair.1.value.longitude else None)
  }

  /** `merged_data` after `pd.merge(..., how='left')` on the keys `lkey` of
      the left rows and `rkey` of the right rows; the script's keys are
      `HigherKey` and `GeocodedKey`, and the lemmas below hold for any keys. */
  function Merged<K(==)>(higher: seq<Location>, geocoded: seq<Geocoding.GeoRow>,
                         lkey: Location -> K, rkey: Geocoding.GeoRow -> K): (rows: seq<Joined>)
    ensures var pairs := LeftJoin(higher, geocoded, lkey, rkey);
      |rows| == |pairs| && forall m :: 0 <= m < |rows| ==> rows[m] == JoinedRow(pairs[m])
  {
    var pairs := LeftJoin(higher, geocoded, lkey, rkey);
    seq(|pairs|, i requires 0 <= i < |pairs| => JoinedRow(pairs[i]))
  }

  /** Where the rows of `higher[i]` start in the merge. */
  function BlockStart<K(==)>(higher: seq<Location>, geocoded: seq<Geocoding.GeoRow>,
                             lkey: Location -> K, rkey: Geocoding.GeoRow -> K, i: nat): nat
    requires i <= |higher|
  {
    |LeftJoin(higher[..i], geocoded, lkey, rkey)|
  }

  /** Every higher-education row survives the merge, in a block of its own:
      as many times as geocoded rows share its key, or once when none does ... */
  lemma MergedKeepsEveryRow<K>(higher: seq<Location>, geocoded: seq<Geocoding.GeoRow>,
                                   lkey: Location -> K, rkey: Geocoding.GeoRow -> K, i: nat)
    requires i < |higher|
    ensures var rows := Merged(higher, geocoded, lkey, rkey);
      var ms := Matches(geocoded, rkey, lkey(higher[i]));
      var p := BlockStart(higher, geocoded, lkey, rkey, i);
      p + (if ms == [] then 1 else |ms|) <= |rows|
      && forall m :: p <= m < p + (if ms == [] then 1 else |ms|) ==> rows[m].location == higher[i]
  {
    var rows := Merged(higher, geocoded, lkey, rkey);
    var pairs := LeftJoin(higher, geocoded, lkey, rkey);
    var ms := Matches(geocoded, rkey, lkey(higher[i]));
    var p := BlockStart(higher, geocoded, lkey, rkey, i);
    LeftJoinRowsOf(higher, geocoded, lkey, rkey, i);
    forall m | p <= m < p + (if ms == [] then 1 else |ms|) ensures rows[m].location == higher[i] {
      assert rows[m] == JoinedRow(pairs[m]);
    }
  }

  /** ... each time with the coordinates of the geocoded row it was paired with ... */
  lemma MergedCoordinates<K>(higher: seq<Location>, geocoded: seq<Geocoding.GeoRow>,
                             lkey: Location -> K, rkey: Geocoding.GeoRow -> K, i: nat)
    requires i < |higher|
    ensures var rows := Merged(higher, geocoded, lkey, rkey);
      var ms := Matches(geocoded, rkey, lkey(higher[i]));
      var p := BlockStart(higher, geocoded, lkey, rkey, i);
      p + |ms| <= |rows|
      && forall m :: 0 <= m < |ms| ==> rows[p + m].latitude == ms[m].latitude && rows[p + m].longitude == ms[m].longitude
  {
    LeftJoinRowsOf(higher, geocoded, lkey, rkey, i);
    var ms := Matches(geocoded, rkey, lkey(higher[i]));
    forall m | 0 <= m < |ms|
      ensures var rows := Merged(higher, geocoded, lkey, rkey);
        var p := BlockStart(higher, geocoded, lkey, rkey, i);
        rows[p + m].latitude == ms[m].latitude && rows[p + m].longitude == ms[m].longitude
    {
      MergedCoordinateAt(higher, geocoded, lkey, rkey, i, m);
    }
  }

  lemma MergedCoordinateAt<K>(higher: seq<Location>, geocoded: seq<Geocoding.GeoRow>,
                              lkey: Location -> K, rkey: Geocoding.GeoRow -> K, i: nat, m: nat)
    requires i < |higher| && m < |Matches(geocoded, rkey, lkey(higher[i]))|
    ensures var rows := Merged(higher, geocoded, lkey, rkey);
      var g := Matches(geocoded, rkey, lkey(higher[i]))[m];
      var p := BlockStart(higher, geocoded, lkey, rkey, i);
      p + m < |rows| && rows[p + m].latitude == g.latitude && rows[p + m].longitude == g.longitude
  {
    var pairs := LeftJoin(higher, geocoded, lkey, rkey);
    var p := BlockStart(higher, geocoded, lkey, rkey, i);
    var g := Matches(geocoded, rkey, lkey(higher[i]))[m];
    LeftJoinRowAt(higher, geocoded, lkey, rkey, i, m);
    assert pairs[p + m] == (higher[i], Some(g));
    assert Merged(higher, geocoded, lkey, rkey)[p + m] == Joined(higher[i], g.latitude, g.longitude);
  }

  /** ... or once with null coordinates when it found none. */
  lemma MergedUnmatched<K>(higher: seq<Location>, geocoded: seq<Geocoding.GeoRow>,
                               lkey: Location -> K, rkey: Geocoding.GeoRow -> K, i: nat)
    requires i < |higher| && Matches(geocoded, rkey, lkey(higher[i])) == []
    ensures var rows := Merged(higher, geocoded, lkey, rkey);
      var p := BlockStart(higher, geocoded, lkey, rkey, i);
      p < |rows| && rows[p].location == higher[i] && rows[p].latitude.None? && rows[p].longitude.None?
  {
    var pairs := LeftJoin(higher, geocoded, lkey, rkey);
    var p := BlockStart(higher, geocoded, lkey, rkey, i);
    LeftJoinUnmatchedAt(higher, geocoded, lkey, rkey, i);
    assert Merged(higher, geocoded, lkey, rkey)[p] == JoinedRow(pairs[p]);
  }

  // ------------------------------------------------ status and conversion

  /** A row of `merged_data` once `location_status` is added. */
  datatype Record = Record(
    location: Location,
    latitude: Option<real>,
    longitude: Option<real>,
    status: LocationStatus)

  /** `merged_data['location_status'] = merged_data.apply(determine_location_status, axis=1)` */
  function WithStatus(rows: seq<Joined>, now: Stamp): (out: seq<Record>)
    ensures |out| == |rows|
    ensures forall i :: 0 <= i < |rows| ==>
      out[i] == Record(rows[i].location, rows[i].latitude, rows[i].longitude,
        DetermineLocationStatus(rows[i].location.dtInBedrijf, rows[i].location.dtUitBedrijf, now))
  {
    seq(|rows|, i requires 0 <= i < |rows| =>
      Record(rows[i].location, rows[i].latitude, rows[i].longitude,
        DetermineLocationStatus(rows[i].location.dtInBedrijf, rows[i].location.dtUitBedrijf, now)))
  }

  /** Both date cells of a row are empty or readable. */
  predicate DatesReadable(r: Record) {
    !r.location.dtInBedrijf.Unreadable? && !r.location.dtUitBedrijf.Unreadable?
  }

  /** The two column conversions `pd.to_datetime(merged_data[...])`: without
      `errors` they raise on a cell they cannot read; otherwise every cell
      keeps the day it stands for. */
  function ConvertDates(rows: seq<Record>): (r: Result<seq<Record>, string>)
    ensures r.Err? <==> exists i :: 0 <= i < |rows| && !DatesReadable(rows[i])
    ensures r.Ok? ==> r.value == rows
  {
    if forall i :: 0 <= i < |rows| ==> DatesReadable(rows[i]) then Ok(rows)
    else Err("Unknown datetime string format")
  }

  /** When the conversion succeeds no row is Unknown: the status rule's
      `except` branch is taken only for a cell the column conversion rejects. */
  lemma ConvertedStatusesKnown(rows: seq<Joined>, now: Stamp)
    requires ConvertDates(WithStatus(rows, now)).Ok?
    ensures var out := ConvertDates(WithStatus(rows, now)).value;
      forall i :: 0 <= i < |out| ==> out[i].status in {Active, Closed}
  {
    var out := WithStatus(rows, now);
    forall i | 0 <= i < |out| ensures out[i].status in {Active, Closed} {
      assert DatesReadable(out[i]);
    }
  }

  // ------------------------------------------------ get_most_recent_record

  /** The converted start and end dates of a record. */
  function Start(r: Record): Option<Stamp> { Coerce(r.location.dtInBedrijf) }
  function End(r: Record): Option<Stamp> { Coerce(r.location.dtUitBedrijf) }

  /** `a` comes no later than `b` in a descending sort with NaT last. */
  predicate StartAtLeast(a: Option<Stamp>, b: Option<Stamp>) {
    b.None? || (a.Some? && !Before(a.value, b.value))
  }

  /** `sort_values('DT_IN_BEDRIJF', ascending=False).iloc[0]`: a record whose
      start is the latest; NaT sorts last. */
  function Latest(group: seq<Record>): (r: Record)
    requires group != []
    ensures r in group
    ensures forall x :: x in group ==> StartAtLeast(Start(r), Start(x))
    decreases |group|
  {
    if |group| == 1 then group[0]
    else
      var rest := Latest(group[1..]);
      assert group == [group[0]] + group[1..];
      if StartAtLeast(Start(group[0]), Start(rest)) then group[0] else rest
  }

  /** The index of the first Active record, `|group|` when there is none. */
  function FirstActive(group: seq<Record>): (k: nat)
    ensures k <= |group|
    ensures forall m :: 0 <= m < k ==> group[m].status != Active
    ensures k < |group| ==> group[k].status == Active
    decreases |group|
  {
    if group == [] then 0
    else if group[0].status == Active then 0
    else 1 + FirstActive(group[1..])
  }

  /** `get_most_recent_record`: the first Active record in group order, and
      without one a record with the latest start. */
  function MostRecentRecord(group: seq<Record>): (r: Record)
    requires group != []
    ensures r in group
    ensures (exists k :: 0 <= k < |group| && group[k].status == Active) ==>
      exists k :: 0 <= k < |group| && r == group[k] && r.status == Active
        && forall m :: 0 <= m < k ==> group[m].status != Active
    ensures (forall x :: x in group ==> x.status != Active) ==>
      forall x :: x in group ==> StartAtLeast(Start(r), Start(x))
  {
    var k := FirstActive(group);
    if k < |group| then group[k] else Latest(group)
  }

  // -------------------------------------------------------- one per location

  /** The coordinate pair of a record; None when either is null, which is
      how `groupby` leaves the row out. */
  function Coordinates(r: Record): Option<Key> {
    if r.latitude.Some? && r.longitude.Some? then Some((r.latitude.value, r.longitude.value)) else None
  }

  /** The non-null coordinate pairs of the rows, in row order. */
  function CoordinateKeys(rows: seq<Record>): (ks: seq<Key>)
    ensures forall k :: k in ks <==> exists i :: 0 <= i < |rows| && Coordinates(rows[i]) == Some(k)
    decreases |rows|
  {
    if rows == [] then []
    else
      var ks := CoordinateKeys(rows[..|rows| - 1]);
      assert forall i :: 0 <= i < |rows| - 1 ==> rows[..|rows| - 1][i] == rows[i];
      match Coordinates(rows[|rows| - 1])
      case None => ks
      case Some(k) => ks + [k]
  }

  /** The group of a key: the rows with that coordinate pair, in row order. */
  function GroupOf(rows: seq<Record>, k: Key): (g: seq<Record>)
    ensures forall x :: x in g <==> x in rows && Coordinates(x) == Some(k)
    decreases |rows|
  {
    if rows == [] then []
    else
      assert rows == [rows[0]] + rows[1..];
      var rest := GroupOf(rows[1..], k);
      if Coordinates(rows[0]) == Some(k) then [rows[0]] + rest else rest
  }

  /** Groups keep row order: the group of a concatenation is the groups of
      its parts, one after the other. */
  lemma {:induction false} GroupOfAppend(a: seq<Record>, b: seq<Record>, k: Key)
    ensures GroupOf(a + b, k) == GroupOf(a, k) + GroupOf(b, k)
    decreases |a|
  {
    if a == [] {
      assert a + b == b;
    } else {
      assert (a + b)[0] == a[0] && (a + b)[1..] == a[1..] + b;
      GroupOfAppend(a[1..], b, k);
    }
  }

  /** Row `i` is the first Active row, in row order, that carries the key. */
  predicate FirstActiveRow(rows: seq<Record>, k: Key, i: nat) {
    i < |rows| && Coordinates(rows[i]) == Some(k) && rows[i].status == Active
    && forall m :: 0 <= m < i && Coordinates(rows[m]) == Some(k) ==> rows[m].status != Active
  }

  /** The first Active record of a group is the first Active row, in row
      order, that carries the key. */
  lemma {:induction false} GroupFirstActive(rows: seq<Record>, k: Key, i: nat)
    requires FirstActiveRow(rows, k, i)
    ensures var g := GroupOf(rows, k); FirstActive(g) < |g| && g[FirstActive(g)] == rows[i]
    decreases i
  {
    var g := GroupOf(rows, k);
    if i > 0 {
      var rest := GroupOf(rows[1..], k);
      assert forall m :: 0 <= m < i - 1 ==> rows[1..][m] == rows[m + 1];
      assert FirstActiveRow(rows[1..], k, i - 1);
      GroupFirstActive(rows[1..], k, i - 1);
      if Coordinates(rows[0]) == Some(k) {
        assert g == [rows[0]] + rest && g[1..] == rest;
      }
    }
  }

  /** The record kept for the key `k`, which some row carries: the first
      Active row with that key in row order, and without one a row with the
      key and the latest start. */
  function GroupRecord(rows: seq<Record>, k: Key): (r: Record)
    requires exists i :: 0 <= i < |rows| && Coordinates(rows[i]) == Some(k)
    ensures r in rows && Coordinates(r) == Some(k)
    ensures (exists i :: 0 <= i < |rows| && Coordinates(rows[i]) == Some(k) && rows[i].status == Active) ==>
      r.status == Active
    ensures forall i: nat :: FirstActiveRow(rows, k, i) ==> r == rows[i]
    ensures (forall x :: x in rows && Coordinates(x) == Some(k) ==> x.status != Active) ==>
      forall x :: x in rows && Coordinates(x) == Some(k) ==> StartAtLeast(Start(r), Start(x))
  {
    var g := GroupOf(rows, k);
    assert g != [] by {
      var i :| 0 <= i < |rows| && Coordinates(rows[i]) == Some(k);
      assert rows[i] in g;
    }
    assert forall i: nat :: FirstActiveRow(rows, k, i) ==> MostRecentRecord(g) == rows[i] by {
      forall i: nat | FirstActiveRow(rows, k, i) ensures MostRecentRecord(g) == rows[i] {
        GroupFirstActive(rows, k, i);
      }
    }
    assert (exists i :: 0 <= i < |rows| && Coordinates(rows[i]) == Some(k) && rows[i].status == Active) ==>
      exists j :: 0 <= j < |g| && g[j].status == Active by {
      if exists i :: 0 <= i < |rows| && Coordinates(rows[i]) == Some(k) && rows[i].status == Active {
        var i :| 0 <= i < |rows| && Coordinates(rows[i]) == Some(k) && rows[i].status == Active;
        assert rows[i] in g;
      }
    }
    MostRecentRecord(g)
  }

  /** `groupby(['latitude', 'longitude']).apply(get_most_recent_record)`: one
      record per key, keys in ascending order. */
  function UniqueLocations(rows: seq<Record>): (out: seq<Record>)
    ensures |out| == |SortedKeys(CoordinateKeys(rows))|
    ensures forall i :: 0 <= i < |out| ==> out[i] == GroupRecord(rows, SortedKeys(CoordinateKeys(rows))[i])
  {
    var keys := SortedKeys(CoordinateKeys(rows));
    assert forall i :: 0 <= i < |keys| ==> keys[i] in keys;
    seq(|keys|, i requires 0 <= i < |keys| && keys[i] in CoordinateKeys(rows) => GroupRecord(rows, keys[i]))
  }

  /** The unique location at position `i` is a row carrying the `i`-th sorted pair. */
  lemma {:induction false} UniqueLocationAt(rows: seq<Record>, i: nat)
    requires i < |UniqueLocations(rows)|
    ensures var out := UniqueLocations(rows);
      out[i] in rows && Coordinates(out[i]) == Some(SortedKeys(CoordinateKeys(rows))[i])
  {
    var keys := SortedKeys(CoordinateKeys(rows));
    assert keys[i] in keys;
  }

  /** A row with both coordinates has its pair among the sorted keys. */
  lemma {:induction false} RowKeySorted(rows: seq<Record>, x: Record)
    requires x in rows && Coordinates(x).Some?
    ensures Coordinates(x).value in SortedKeys(CoordinateKeys(rows))
  {
    var i :| 0 <= i < |rows| && rows[i] == x;
  }

  /** Exactly one record per distinct non-null coordinate pair: every output
      record is an input row with coordinates, no two share a pair, and every
      pair of the input is represented. */
  lemma UniqueLocationsOnePerPair(rows: seq<Record>)
    ensures var out := UniqueLocations(rows);
      (forall i :: 0 <= i < |out| ==> out[i] in rows && Coordinates(out[i]).Some?)
      && (forall i, j :: 0 <= i < j < |out| ==> Coordinates(out[i]) != Coordinates(out[j]))
      && (forall x :: x in rows && Coordinates(x).Some? ==>
            exists i :: 0 <= i < |out| && Coordinates(out[i]) == Coordinates(x))
  {
    var out := UniqueLocations(rows);
    var keys := SortedKeys(CoordinateKeys(rows));
    forall i | 0 <= i < |out| ensures out[i] in rows && Coordinates(out[i]) == Some(keys[i]) {
      UniqueLocationAt(rows, i);
    }
    SortedKeysDistinct(CoordinateKeys(rows));
    forall i, j | 0 <= i < j < |out| ensures Coordinates(out[i]) != Coordinates(out[j]) {
      assert keys[i] != keys[j];
    }
    forall x | x in rows && Coordinates(x).Some?
      ensures exists i :: 0 <= i < |out| && Coordinates(out[i]) == Coordinates(x)
    {
      RowKeySorted(rows, x);
      var j :| 0 <= j < |keys| && keys[j] == Coordinates(x).value;
      UniqueLocationAt(rows, j);
    }
  }


  // ------------------------------------------------------------ final table

  /** A row of the QGIS file: the 21 selected columns in order, with the day
      count `years_of_operation` is computed from. */
  datatype FinalRow = FinalRow(
    nrAdministratie: Option<string>,
    codeFunctie: Option<string>,
    codeSoort: Option<string>,
    naamVolledig: Option<string>,
    fullAddress: Option<string>,
    postcodeCleaned: string,
    houseNumber: string,
    latitude: Option<real>,
    longitude: Option<real>,
    postcodeVest: Option<string>,
    naamPlaats: Option<string>,
    provincie: Option<string>,
    locationStatus: LocationStatus,
    facilityType: string,
    operationDays: Option<int>,
    decadeOpened: Option<string>,
    decadeClosed: Option<string>,
    operationPeriod: string,
    dtInBedrijf: Option<Stamp>,
    dtUitBedrijf: Option<Stamp>,
    codeStandRecord: Option<string>)

  /** The analysis columns of one unique location and the column selection. */
  function FinalRowOf(r: Record, period: string, now: Stamp): FinalRow {
    var l := r.location;
    FinalRow(l.nrAdministratie, l.codeFunctie, l.codeSoort, l.naamVolledig, l.fullAddress,
      HigherKey(l).0, HigherKey(l).1, r.latitude, r.longitude,
      l.postcodeVest, l.naamPlaats, l.provincie, r.status,
      FacilityType(l.codeSoort), OperationDays(Start(r), End(r), now),
      DecadeLabel(Start(r)), DecadeLabel(End(r)), period, Start(r), End(r), l.codeStandRecord)
  }

  /** The analysis columns over the unique locations: `strftime` on a NaT start
      raises inside the `operation_period` lambda, and with no unique location
      at all the assignment of that lambda's `apply` raises; either ends the
      script. */
  function FinalRows(unique: seq<Record>, now: Stamp): (r: Result<seq<FinalRow>, string>)
    ensures r.Err? <==> unique == [] || exists i :: 0 <= i < |unique| && Start(unique[i]).None?
    ensures unique == [] ==> r == Err(EmptyPeriodError)
    ensures r.Ok? ==> |r.value| == |unique| && forall i :: 0 <= i < |unique| ==>
      OperationPeriod(Start(unique[i]), End(unique[i])).Ok?
      && r.value[i] == FinalRowOf(unique[i], OperationPeriod(Start(unique[i]), End(unique[i])).value, now)
  {
    if unique == [] then Err(EmptyPeriodError)
    else if exists i :: 0 <= i < |unique| && Start(unique[i]).None? then Err(OperationPeriod(None, None).error)
    else
      Ok(seq(|unique|, i requires 0 <= i < |unique| && Start(unique[i]).Some? =>
        FinalRowOf(unique[i], OperationPeriod(Start(unique[i]), End(unique[i])).value, now)))
  }

  /** `process_datasets` from the two files read to the rows written, or the
      error that stops the script. */
  function RefinedHigher(higher: seq<Location>, geocoded: seq<Geocoding.GeoRow>, now: Stamp): Result<seq<FinalRow>, string> {
    match ConvertDates(WithStatus(Merged(higher, geocoded, HigherKey, GeocodedKey), now))
    case Err(e) => Err(e)
    case Ok(rows) => FinalRows(UniqueLocations(DropDuplicates(rows)), now)
  }

  /** Rows none of which has both coordinates have no coordinate pair. */
  lemma {:induction false} CoordinateKeysNone(rows: seq<Record>)
    requires forall i :: 0 <= i < |rows| ==> Coordinates(rows[i]).None?
    ensures CoordinateKeys(rows) == []
    decreases |rows|
  {
    if rows != [] {
      CoordinateKeysNone(rows[..|rows| - 1]);
    }
  }

  /** Rows none of which has both coordinates leave no unique location. */
  lemma {:induction false} NoCoordinatesNoUnique(rows: seq<Record>)
    requires forall i :: 0 <= i < |rows| ==> Coordinates(rows[i]).None?
    ensures UniqueLocations(DropDuplicates(rows)) == []
  {
    var d := DropDuplicates(rows);
    forall i | 0 <= i < |d| ensures Coordinates(d[i]).None? {
      assert d[i] in rows;
    }
    CoordinateKeysNone(d);
  }

  /** Without geocoded rows no merged row has coordinates, so there is no
      unique location and the script stops at the `operation_period` column. */
  lemma NoGeocodedRowsFails(higher: seq<Location>, now: Stamp)
    ensures RefinedHigher(higher, [], now).Err?
  {
    var merged := Merged(higher, [], HigherKey, GeocodedKey);
    LeftJoinEmptyRight(higher, HigherKey, GeocodedKey);
    var records := WithStatus(merged, now);
    assert forall i :: 0 <= i < |records| ==> Coordinates(records[i]).None?;
    if ConvertDates(records).Ok? {
      NoCoordinatesNoUnique(records);
    }
  }

  /** Each written row carries its location's status and coordinates ... */
  lemma FinalRowsColumns(unique: seq<Record>, now: Stamp)
    requires FinalRows(unique, now).Ok?
    ensures var out := FinalRows(unique, now).value;
      forall i :: 0 <= i < |out| ==>
        out[i].locationStatus == unique[i].status
        && out[i].latitude == unique[i].latitude && out[i].longitude == unique[i].longitude
  {
  }

  /** ... a start date, and a period that runs from the start to the end date,
      or to "Present" exactly when there is no end date. */
  lemma FinalRowsPeriods(unique: seq<Record>, now: Stamp)
    requires FinalRows(unique, now).Ok?
    ensures var out := FinalRows(unique, now).value;
      forall i :: 0 <= i < |out| ==>
        out[i].dtInBedrijf.Some? && |out[i].operationPeriod| >= 14
        && out[i].operationPeriod[..10] == FormatISO(out[i].dtInBedrijf.value)
        && (out[i].operationPeriod[14..] == "Present" <==> out[i].dtUitBedrijf.None?)
  {
    var out := FinalRows(unique, now).value;
    forall i | 0 <= i < |out|
      ensures out[i].dtInBedrijf.Some? && |out[i].operationPeriod| >= 14
        && out[i].operationPeriod[..10] == FormatISO(out[i].dtInBedrijf.value)
        && (out[i].operationPeriod[14..] == "Present" <==> out[i].dtUitBedrijf.None?)
    {
      var period := OperationPeriod(Start(unique[i]), End(unique[i]));
      assert out[i] == FinalRowOf(unique[i], period.value, now);
    }
  }

  /** Converting rows keeps their coordinate pairs, so distinct non-null
      pairs stay distinct and non-null in the table. */
  lemma FinalRowsKeepCoordinates(unique: seq<Record>, now: Stamp)
    requires FinalRows(unique, now).Ok?
    requires forall i :: 0 <= i < |unique| ==> Coordinates(unique[i]).Some?
    requires forall i, j :: 0 <= i < j < |unique| ==> Coordinates(unique[i]) != Coordinates(unique[j])
    ensures var out := FinalRows(unique, now).value;
      (forall i :: 0 <= i < |out| ==> out[i].latitude.Some? && out[i].longitude.Some?)
      && (forall i, j :: 0 <= i < j < |out| ==> (out[i].latitude, out[i].longitude) != (out[j].latitude, out[j].longitude))
  {
    FinalRowsColumns(unique, now);
    var out := FinalRows(unique, now).value;
    forall i, j | 0 <= i < j < |out|
      ensures (out[i].latitude, out[i].longitude) != (out[j].latitude, out[j].longitude)
    {
      assert Coordinates(unique[i]) != Coordinates(unique[j]);
    }
  }

  /** The table written from converted rows: one row per distinct coordinate
      pair, none with null coordinates ... */
  lemma UniqueFinalCoordinates(rows: seq<Record>, now: Stamp)
    requires FinalRows(UniqueLocations(DropDuplicates(rows)), now).Ok?
    ensures var out := FinalRows(UniqueLocations(DropDuplicates(rows)), now).value;
      (forall i :: 0 <= i < |out| ==> out[i].latitude.Some? && out[i].longitude.Some?)
      && (forall i, j :: 0 <= i < j < |out| ==> (out[i].latitude, out[i].longitude) != (out[j].latitude, out[j].longitude))
  {
    UniqueLocationsOnePerPair(DropDuplicates(rows));
    FinalRowsKeepCoordinates(UniqueLocations(DropDuplicates(rows)), now);
  }

  /** The status column of the rows, in row order. */
  function Statuses(rows: seq<Record>): (s: seq<LocationStatus>)
    ensures |s| == |rows|
  {
    seq(|rows|, k requires 0 <= k < |rows| => rows[k].status)
  }

  /** Each row of the table carries the status of the record it came from. */
  lemma FinalRowsKeepStatuses(unique: seq<Record>, rows: seq<Record>, now: Stamp)
    requires FinalRows(unique, now).Ok?
    requires forall i :: 0 <= i < |unique| ==> unique[i] in rows
    ensures var out := FinalRows(unique, now).value;
      forall i :: 0 <= i < |out| ==> out[i].locationStatus in Statuses(rows)
  {
    FinalRowsColumns(unique, now);
    var out := FinalRows(unique, now).value;
    forall i | 0 <= i < |out| ensures out[i].locationStatus in Statuses(rows) {
      var k :| 0 <= k < |rows| && rows[k] == unique[i];
      assert Statuses(rows)[k] == out[i].locationStatus;
    }
  }

  /** ... and only statuses the rows had. */
  lemma UniqueFinalStatuses(rows: seq<Record>, now: Stamp)
    requires FinalRows(UniqueLocations(DropDuplicates(rows)), now).Ok?
    ensures var out := FinalRows(UniqueLocations(DropDuplicates(rows)), now).value;
      forall i :: 0 <= i < |out| ==> out[i].locationStatus in Statuses(rows)
  {
    var unique := UniqueLocations(DropDuplicates(rows));
    UniqueLocationsOnePerPair(DropDuplicates(rows));
    forall i | 0 <= i < |unique| ensures unique[i] in rows {
      assert unique[i] in DropDuplicates(rows);
    }
    FinalRowsKeepStatuses(unique, rows, now);
  }

  /** What a written file holds: one row per distinct coordinate pair, none
      with null coordinates, and every status Active or Closed. */
  lemma RefinedHigherRows(higher: seq<Location>, geocoded: seq<Geocoding.GeoRow>, now: Stamp)
    requires RefinedHigher(higher, geocoded, now).Ok?
    ensures var out := RefinedHigher(higher, geocoded, now).value;
      (forall i :: 0 <= i < |out| ==> out[i].latitude.Some? && out[i].longitude.Some?)
      && (forall i, j :: 0 <= i < j < |out| ==> (out[i].latitude, out[i].longitude) != (out[j].latitude, out[j].longitude))
      && (forall i :: 0 <= i < |out| ==> out[i].locationStatus in {Active, Closed})
  {
    var rows := WithStatus(Merged(higher, geocoded, HigherKey, GeocodedKey), now);
    ConvertedStatusesKnown(Merged(higher, geocoded, HigherKey, GeocodedKey), now);
    UniqueFinalCoordinates(rows, now);
    UniqueFinalStatuses(rows, now);
  }

  /** A row with neither postcode nor address has the key `('', '')`, which
      pandas matches like any other: such a row is paired with every geocoded
      row whose address yields neither a postcode nor a house number. */
  lemma BlankKeysMatch(l: Location, geocoded: seq<Geocoding.GeoRow>, g: Geocoding.GeoRow)
    requires l.postcodeVest.None? && l.fullAddress.None?
    requires g in geocoded && GeocodedKey(g) == ("", "")
    ensures g in Matches(geocoded, GeocodedKey, HigherKey(l))
  {
    assert HigherKey(l) == ("", "");
  }

  /** `process_datasets`: `merged_data` and `unique_locations` built step by
      step as the script assigns them. */
  method ProcessDatasets(higher: seq<Location>, geocoded: seq<Geocoding.GeoRow>, now: Stamp)
    returns (result: Result<seq<FinalRow>, string>)
    ensures result == RefinedHigher(higher, geocoded, now)
  {
    var mergedData := WithStatus(Merged(higher, geocoded, HigherKey, GeocodedKey), now);
    var converted := ConvertDates(mergedData);
    if converted.Err? {
      return Err(converted.error);
    }
    mergedData := DropDuplicates(converted.value);
    var uniqueLocations := UniqueLocations(mergedData);
    result := FinalRows(uniqueLocations, now);
  }
}

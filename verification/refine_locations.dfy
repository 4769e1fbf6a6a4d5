/** `05_refine_locations.py`: for one sector, the sector's locations are joined
    to their geocoded coordinates on the full address (when the sector is not
    primary and a geocoded file exists), given the temporal analysis columns
    and reduced to the output columns. */
module RefineLocations {
  import opened Common
  import opened Dates
  import opened Temporal
  import opened Joins
  import Text
  import Geocoding
  import MergeDatasets

  // ------------------------------------------------------ facility tables

  /** The sector whose name is `name`, if any. */
  function SectorNamed(name: string): (s: Option<MergeDatasets.Sector>)
    ensures s.Some? ==> MergeDatasets.SectorName(s.value) == name
    ensures s.None? ==> forall t :: MergeDatasets.SectorName(t) != name
  {
    if name == "primary" then Some(MergeDatasets.Primary)
    else if name == "secondary" then Some(MergeDatasets.Secondary)
    else if name == "vocational" then Some(MergeDatasets.Vocational)
    else if name == "higher" then Some(MergeDatasets.Higher)
    else None
  }

  /** The entry of `facility_categories` for a sector, looked up with
      `.get(code)`: the label of a code in the sector's table, or None. */
  function FacilityLabel(s: MergeDatasets.Sector, code: string): (entry: Option<string>)
    ensures entry.Some? <==> code in FacilityCodes(s)
    ensures entry.Some? ==> entry.value != "Other"
  {
    match s
    case Primary =>
      if code == "BAS" then Some("Regular Primary School")
      else if code == "SBAS" then Some("Special Primary Education")
      else if code == "SPEC" then Some("Special Education")
      else if code == "VST" then Some("Primary Branch Location")
      else None
    case Secondary =>
      if code == "VOS" then Some("Regular Secondary School")
      else if code == "PROS" then Some("Practical Education")
      else if code == "AOCV" then Some("Agricultural Education")
      else if code == "VSTS" then Some("Secondary Technical School")
      else if code == "VSTZ" then Some("Secondary Branch Location")
      else None
    case Vocational =>
      if code == "ROC" then Some("Regional Education Center")
      else if code == "ROCV" then Some("Specialized Regional Center")
      else if code == "VAK" then Some("Vocational School")
      else if code == "VAKV" then Some("Advanced Vocational")
      else if code == "ILOC" then Some("International Location")
      else None
    case Higher =>
      if code == "HBOS" then Some("University of Applied Sciences")
      else if code == "UNIV" then Some("Research University")
      else if code == "LOC" then Some("Higher Education Branch")
      else if code == "ULOC" then Some("University Branch")
      else None
  }

  /** The codes each sector's table names. */
  function FacilityCodes(s: MergeDatasets.Sector): set<string> {
    match s
    case Primary => {"BAS", "SBAS", "SPEC", "VST"}
    case Secondary => {"VOS", "PROS", "AOCV", "VSTS", "VSTZ"}
    case Vocational => {"ROC", "ROCV", "VAK", "VAKV", "ILOC"}
    case Higher => {"HBOS", "UNIV", "LOC", "ULOC"}
  }

  /** No code appears in the tables of two sectors. */
  lemma FacilityTablesDisjoint(a: MergeDatasets.Sector, b: MergeDatasets.Sector, code: string)
    requires code in FacilityCodes(a) && code in FacilityCodes(b)
    ensures a == b
  {
  }

  // --------------------------------------------------------------- the rows

  /** A row of the sector's locations file as read: the columns the script
      names, its two date cells as `pd.to_datetime` sees them, and the others. */
  datatype BaseLocation = BaseLocation(
    nrAdministratie: Option<string>,
    codeFunctie: Option<string>,
    codeSoort: Option<string>,
    naamVolledig: Option<string>,
    fullAddress: Option<string>,
    postcodeVest: Option<string>,
    naamPlaats: Option<string>,
    provincie: Option<string>,
    dtInBedrijf: DateText,
    dtUitBedrijf: DateText,
    other: seq<Option<string>>)

  /** The columns `add_temporal_analysis` adds to a row. */
  datatype Analysis = Analysis(
    operationDays: Option<int>,
    decadeOpened: Option<string>,
    decadeClosed: Option<string>,
    facilityType: string,
    status: LocationStatus,
    period: string)

  /** A row of `merged_data`: the base row, its coordinates (null when the
      merge found none or the columns are absent), and the analysis columns
      once they are added. */
  datatype Facility = Facility(
    base: BaseLocation,
    latitude: Option<real>,
    longitude: Option<real>,
    analysis: Option<Analysis>)

  /** The row of a base location before any coordinates or analysis. */
  function Unmerged(b: BaseLocation): Facility {
    Facility(b, None, None, None)
  }

  /** The merge key on the geocoded side. */
  function GeocodedAddress(g: Geocoding.GeoRow): Option<string> {
    Some(g.fullAddress)
  }

  /** The merge key on the base side. */
  function BaseAddress(b: BaseLocation): Option<string> {
    b.fullAddress
  }

  /** A merged pair as a row. */
  function PairedFacility(pair: (BaseLocation, Option<Geocoding.GeoRow>)): Facility {
    Facility(pair.0,
      if pair.1.Some? then pair.1.value.latitude else None,
      if pair.1.Some? then pair.1.value.longitude else None,
      None)
  }

  /** `base_data.merge(geocoded_data[...], on='full_address', how='left')` */
  function AddressJoin(base: seq<BaseLocation>, geocoded: seq<Geocoding.GeoRow>): (rows: seq<Facility>)
    ensures var pairs := LeftJoin(base, geocoded, BaseAddress, GeocodedAddress);
      |rows| == |pairs| && forall m :: 0 <= m < |rows| ==> rows[m] == PairedFacility(pairs[m])
  {
    var pairs := LeftJoin(base, geocoded, BaseAddress, GeocodedAddress);
    seq(|pairs|, i requires 0 <= i < |pairs| => PairedFacility(pairs[i]))
  }

  /** Every base row survives the address merge. */
  lemma AddressJoinKeepsRows(base: seq<BaseLocation>, geocoded: seq<Geocoding.GeoRow>, i: nat)
    requires i < |base|
    ensures exists p :: 0 <= p < |AddressJoin(base, geocoded)| && AddressJoin(base, geocoded)[p].base == base[i]
  {
    var rows := AddressJoin(base, geocoded);
    var pairs := LeftJoin(base, geocoded, BaseAddress, GeocodedAddress);
    LeftJoinKeepsLeftRows(base, geocoded, BaseAddress, GeocodedAddress, i);
    var p :| 0 <= p < |pairs| && pairs[p].0 == base[i];
    assert rows[p] == PairedFacility(pairs[p]);
  }

  /** When no address occurs twice in the geocoded file, the merge adds no rows. */
  lemma AddressJoinSameLength(base: seq<BaseLocation>, geocoded: seq<Geocoding.GeoRow>)
    requires forall b :: b in base ==> |Matches(geocoded, GeocodedAddress, BaseAddress(b))| <= 1
    ensures |AddressJoin(base, geocoded)| == |base|
  {
    LeftJoinSameLength(base, geocoded, BaseAddress, GeocodedAddress);
  }

  /** The `m`-th geocoded row with the address of base row `i` gives the
      `m`-th merged row of that base row its coordinates. */
  lemma AddressJoinRowAt(base: seq<BaseLocation>, geocoded: seq<Geocoding.GeoRow>, i: nat, m: nat)
    requires i < |base| && m < |Matches(geocoded, GeocodedAddress, BaseAddress(base[i]))|
    ensures var rows := AddressJoin(base, geocoded);
      var ms := Matches(geocoded, GeocodedAddress, BaseAddress(base[i]));
      var p := |LeftJoin(base[..i], geocoded, BaseAddress, GeocodedAddress)|;
      p + m < |rows| && rows[p + m].base == base[i]
      && rows[p + m].latitude == ms[m].latitude && rows[p + m].longitude == ms[m].longitude
  {
    var pairs := LeftJoin(base, geocoded, BaseAddress, GeocodedAddress);
    var p := |LeftJoin(base[..i], geocoded, BaseAddress, GeocodedAddress)|;
    var g := Matches(geocoded, GeocodedAddress, BaseAddress(base[i]))[m];
    LeftJoinRowAt(base, geocoded, BaseAddress, GeocodedAddress, i, m);
    assert pairs[p + m] == (base[i], Some(g));
    assert AddressJoin(base, geocoded)[p + m] == Facility(base[i], g.latitude, g.longitude, None);
  }

  /** A base row without a geocoded row of its address is merged once, with
      null coordinates. */
  lemma AddressJoinUnmatched(base: seq<BaseLocation>, geocoded: seq<Geocoding.GeoRow>, i: nat)
    requires i < |base| && Matches(geocoded, GeocodedAddress, BaseAddress(base[i])) == []
    ensures var rows := AddressJoin(base, geocoded);
      var p := |LeftJoin(base[..i], geocoded, BaseAddress, GeocodedAddress)|;
      p < |rows| && rows[p].base == base[i] && rows[p].latitude.None? && rows[p].longitude.None?
  {
    var pairs := LeftJoin(base, geocoded, BaseAddress, GeocodedAddress);
    var p := |LeftJoin(base[..i], geocoded, BaseAddress, GeocodedAddress)|;
    LeftJoinUnmatchedAt(base, geocoded, BaseAddress, GeocodedAddress, i);
    assert AddressJoin(base, geocoded)[p] == PairedFacility(pairs[p]);
  }

  /** When no base address has a geocoded row, the merge is the base file
      itself, row for row, without coordinates. */
  lemma AddressJoinNoMatches(base: seq<BaseLocation>, geocoded: seq<Geocoding.GeoRow>)
    requires forall b :: b in base ==> Matches(geocoded, GeocodedAddress, BaseAddress(b)) == []
    ensures |AddressJoin(base, geocoded)| == |base|
    ensures forall i :: 0 <= i < |base| ==> AddressJoin(base, geocoded)[i] == Unmerged(base[i])
  {
    AddressJoinSameLength(base, geocoded);
    forall i | 0 <= i < |base|
      ensures AddressJoin(base, geocoded)[i] == Unmerged(base[i])
    {
      assert base[i] in base;
      assert forall b :: b in base[..i] ==> b in base;
      LeftJoinSameLength(base[..i], geocoded, BaseAddress, GeocodedAddress);
      AddressJoinUnmatched(base, geocoded, i);
    }
  }

  /** The address ends in the country the geocoding scripts append. */
  predicate EndsWithCountry(s: string) {
    |s| >= 13 && s[|s| - 13..] == ", Netherlands"
  }

  /** Every address in a file written by the geocoding scripts is a rebuilt
      one, so it ends in the country. */
  lemma GeocodedAddressesEndWithCountry(provider: Geocoding.Provider, rows: seq<Geocoding.AddressRow>, first: nat)
    ensures var out := Geocoding.GeocodeAll(provider, Geocoding.Addresses(Geocoding.Prepared(rows)), first).rows;
      forall g :: g in out ==> EndsWithCountry(g.fullAddress)
  {
    var addresses := Geocoding.Addresses(Geocoding.Prepared(rows));
    var out := Geocoding.GeocodeAll(provider, addresses, first).rows;
    Geocoding.PreparedAddresses(rows);
    forall g | g in out ensures EndsWithCountry(g.fullAddress) {
      var i :| 0 <= i < |out| && out[i] == g;
      Geocoding.GeocodeAllRow(provider, addresses, first, i);
      assert g.fullAddress == Geocoding.ComposeAddress(rows[i]);
    }
  }

  /** As written, the merge keys the base file's own `full_address` against
      the rebuilt addresses of the geocoded file: a base row whose address
      does not end in the country finds no coordinates, so a base file of such
      rows comes out of the merge unchanged and without coordinates. */
  lemma RebuiltAddressesNeverMatch(base: seq<BaseLocation>, geocoded: seq<Geocoding.GeoRow>)
    requires forall g :: g in geocoded ==> EndsWithCountry(g.fullAddress)
    requires forall b :: b in base && b.fullAddress.Some? ==> !EndsWithCountry(b.fullAddress.value)
    ensures |AddressJoin(base, geocoded)| == |base|
    ensures forall i :: 0 <= i < |base| ==> AddressJoin(base, geocoded)[i] == Unmerged(base[i])
  {
    forall b | b in base ensures Matches(geocoded, GeocodedAddress, BaseAddress(b)) == [] {
      MatchesNone(geocoded, GeocodedAddress, BaseAddress(b));
    }
    AddressJoinNoMatches(base, geocoded);
  }

  // -------------------------------------------------------------- the frame

  /** The DataFrame `merged_data`: its rows and whether it has the latitude
      and longitude columns (the base file never has them). */
  class FacilityFrame {
    var rows: seq<Facility>
    var hasCoordinates: bool

    constructor (rows: seq<Facility>, hasCoordinates: bool)
      ensures this.rows == rows && this.hasCoordinates == hasCoordinates
    {
      this.rows := rows;
      this.hasCoordinates := hasCoordinates;
    }

    /** `merged_data['latitude'] = np.nan`, then the same for longitude. */
    method AddEmptyCoordinates()
      modifies this
      ensures hasCoordinates && |rows| == |old(rows)|
      ensures forall i :: 0 <= i < |rows| ==> rows[i] == old(rows)[i].(latitude := None, longitude := None)
    {
      var data := rows;
      rows := seq(|data|, i requires 0 <= i < |data| => data[i].(latitude := None, longitude := None));
      hasCoordinates := true;
    }
  }

  /** The rows `load_and_merge_data` returns: the address merge for a sector
      other than primary whose geocoded file exists, otherwise the base rows
      (their coordinates null, which for primary means absent). */
  function MergedFacilities(sector: string, base: seq<BaseLocation>, geocoded: Option<seq<Geocoding.GeoRow>>): (rows: seq<Facility>)
    ensures geocoded.None? || sector == "primary" ==>
      |rows| == |base| && forall i :: 0 <= i < |base| ==> rows[i] == Unmerged(base[i])
    ensures geocoded.Some? && sector != "primary" ==> rows == AddressJoin(base, geocoded.value)
  {
    if geocoded.Some? && sector != "primary" then AddressJoin(base, geocoded.value)
    else seq(|base|, i requires 0 <= i < |base| => Unmerged(base[i]))
  }

  // ---------------------------------------------------------- the analysis

  /** `categorize_facility`: the label of the code in the table of the
      refiner's sector; 'Other' for a code outside it, a null code, or a
      sector name without a table. */
  function CategorizeFacility(sector: string, code: Option<string>): (name: string)
    ensures name != "Other" <==>
      SectorNamed(sector).Some? && code.Some? && code.value in FacilityCodes(SectorNamed(sector).value)
    ensures name != "Other" ==> Some(name) == FacilityLabel(SectorNamed(sector).value, code.value)
  {
    match SectorNamed(sector)
    case None => "Other"
    case Some(s) =>
      if code.Some? && FacilityLabel(s, code.value).Some? then FacilityLabel(s, code.value).value
      else "Other"
  }

  /** At most one sector name gives a code a label other than 'Other'. */
  lemma CategorizeFacilityOneSector(s1: string, s2: string, code: Option<string>)
    requires CategorizeFacility(s1, code) != "Other" && CategorizeFacility(s2, code) != "Other"
    ensures s1 == s2
  {
    FacilityTablesDisjoint(SectorNamed(s1).value, SectorNamed(s2).value, code.value);
  }

  /** Which codes of the sector's own locations file get a label: every code
      the locations step selects for primary and secondary, but only ILOC for
      vocational and only LOC for higher, because the tables name codes
      (ROC, HBOS, UNIV, ...) that the locations step never selects. */
  lemma SectorCodesLabelled(s: MergeDatasets.Sector, code: string)
    requires code in MergeDatasets.SectorCodes(s)
    ensures CategorizeFacility(MergeDatasets.SectorName(s), Some(code)) != "Other"
      <==> s.Primary? || s.Secondary? || code == "ILOC" || code == "LOC"
  {
    assert SectorNamed(MergeDatasets.SectorName(s)) == Some(s);
  }

  /** Both date cells of a row are empty or readable. */
  predicate DatesReadable(f: Facility) {
    !f.base.dtInBedrijf.Unreadable? && !f.base.dtUitBedrijf.Unreadable?
  }

  /** The row has a start date. */
  predicate HasStart(f: Facility) {
    Coerce(f.base.dtInBedrijf).Some?
  }

  /** `add_temporal_analysis` completes: the two column conversions raise on a
      cell they cannot read, `strftime` in the `operation_period` lambda
      raises on a missing start date, and on a frame with no rows the
      assignment of that lambda's `apply` raises. */
  predicate AnalysisSucceeds(rows: seq<Facility>) {
    rows != [] && forall i :: 0 <= i < |rows| ==> DatesReadable(rows[i]) && HasStart(rows[i])
  }

  /** The exception `add_temporal_analysis` stops with, if any: the date
      conversion comes first, the period lambda last. */
  function AnalysisError(rows: seq<Facility>): (e: Option<string>)
    ensures e.None? <==> AnalysisSucceeds(rows)
    ensures e == Some(ConversionError) <==> exists i :: 0 <= i < |rows| && !DatesReadable(rows[i])
    ensures rows == [] ==> e == Some(EmptyPeriodError)
  {
    if exists i :: 0 <= i < |rows| && !DatesReadable(rows[i]) then Some(ConversionError)
    else if rows == [] then Some(EmptyPeriodError)
    else if exists i :: 0 <= i < |rows| && !HasStart(rows[i]) then Some(PeriodError)
    else None
  }

  const ConversionError: string := "Unknown datetime string format"
  const PeriodError: string := "NaTType does not support strftime"

  /** The columns `add_temporal_analysis` computes for a row whose dates
      convert and whose start date is present. */
  function AnalysisOf(sector: string, f: Facility, now: Stamp): Analysis
    requires DatesReadable(f) && HasStart(f)
  {
    var start, end := Coerce(f.base.dtInBedrijf), Coerce(f.base.dtUitBedrijf);
    Analysis(OperationDays(start, end, now), DecadeLabel(start), DecadeLabel(end),
      CategorizeFacility(sector, f.base.codeSoort),
      DetermineLocationStatus(AsDateText(start), AsDateText(end), now),
      OperationPeriod(start, end).value)
  }

  /** An analysed row's status is never Unknown, and it is Active exactly
      when the end date is missing or after now. */
  lemma AnalysisStatus(sector: string, f: Facility, now: Stamp)
    requires DatesReadable(f) && HasStart(f)
    ensures var status := AnalysisOf(sector, f, now).status;
      status != Unknown && (status == Active <==> StillOperating(Coerce(f.base.dtUitBedrijf), now))
  {
    ConvertedStatusKnown(Coerce(f.base.dtInBedrijf), Coerce(f.base.dtUitBedrijf), now);
  }

  /** Every row of the frame with its analysis columns. */
  function Analysed(sector: string, rows: seq<Facility>, now: Stamp): (out: seq<Facility>)
    requires AnalysisSucceeds(rows)
    ensures |out| == |rows|
    ensures forall i :: 0 <= i < |rows| ==> out[i] == rows[i].(analysis := Some(AnalysisOf(sector, rows[i], now)))
  {
    seq(|rows|, i requires 0 <= i < |rows| && AnalysisSucceeds(rows) =>
      rows[i].(analysis := Some(AnalysisOf(sector, rows[i], now))))
  }

  // ------------------------------------------------------------ the output

  /** The sector's output table: its columns in order and its rows. */
  datatype Table = Table(columns: seq<string>, rows: seq<OutputRow>)

  /** A row of the output file: the sixteen kept columns, then latitude and
      longitude when the frame has them. */
  datatype OutputRow = OutputRow(
    nrAdministratie: Option<string>,
    codeFunctie: Option<string>,
    codeSoort: Option<string>,
    naamVolledig: Option<string>,
    fullAddress: Option<string>,
    postcodeVest: Option<string>,
    naamPlaats: Option<string>,
    provincie: Option<string>,
    locationStatus: LocationStatus,
    facilityType: string,
    operationDays: Option<int>,
    decadeOpened: Option<string>,
    decadeClosed: Option<string>,
    operationPeriod: string,
    dtInBedrijf: Option<Stamp>,
    dtUitBedrijf: Option<Stamp>,
    coordinates: Option<(Option<real>, Option<real>)>)

  /** `keep_columns` before the coordinates are appended. */
  const KeepColumns: seq<string> := [
    "NR_ADMINISTRATIE", "CODE_FUNCTIE", "CODE_SOORT", "NAAM_VOLLEDIG",
    "full_address", "POSTCODE_VEST", "NAAM_PLAATS_VEST", "PROVINCIE_VEST",
    "location_status", "facility_type", "years_of_operation",
    "decade_opened", "decade_closed", "operation_period",
    "DT_IN_BEDRIJF", "DT_UIT_BEDRIJF"]

  /** The columns written: the kept ones, with latitude and longitude appended
      exactly when the frame has a latitude column. */
  function OutputColumns(hasCoordinates: bool): (columns: seq<string>)
    ensures |columns| == |KeepColumns| + (if hasCoordinates then 2 else 0)
    ensures columns[..|KeepColumns|] == KeepColumns
    ensures hasCoordinates ==> columns[|KeepColumns|..] == ["latitude", "longitude"]
  {
    KeepColumns + if hasCoordinates then ["latitude", "longitude"] else []
  }

  /** The kept columns of an analysed row. */
  function OutputOf(f: Facility, hasCoordinates: bool): OutputRow
    requires f.analysis.Some?
  {
    var b, a := f.base, f.analysis.value;
    OutputRow(b.nrAdministratie, b.codeFunctie, b.codeSoort, b.naamVolledig, b.fullAddress,
      b.postcodeVest, b.naamPlaats, b.provincie, a.status, a.facilityType, a.operationDays,
      a.decadeOpened, a.decadeClosed, a.period, Coerce(b.dtInBedrijf), Coerce(b.dtUitBedrijf),
      if hasCoordinates then Some((f.latitude, f.longitude)) else None)
  }

  /** `final_data[keep_columns]`: the same rows in the same order. */
  function Selected(rows: seq<Facility>, hasCoordinates: bool): (out: seq<OutputRow>)
    requires forall i :: 0 <= i < |rows| ==> rows[i].analysis.Some?
    ensures |out| == |rows|
    ensures forall i :: 0 <= i < |rows| ==> out[i] == OutputOf(rows[i], hasCoordinates)
  {
    seq(|rows|, i requires 0 <= i < |rows| && rows[i].analysis.Some? => OutputOf(rows[i], hasCoordinates))
  }

  /** The rows written for a frame whose analysis succeeds. */
  function Written(sector: string, rows: seq<Facility>, now: Stamp): (out: seq<OutputRow>)
    requires AnalysisSucceeds(rows)
    ensures |out| == |rows|
  {
    Selected(Analysed(sector, rows, now), sector != "primary")
  }

  /** What a refiner for `sector` writes, or the exception it re-raises. */
  function RefinedLocations(sector: string, base: seq<BaseLocation>, geocoded: Option<seq<Geocoding.GeoRow>>, now: Stamp): (r: Result<Table, string>)
    ensures r.Err? <==> !AnalysisSucceeds(MergedFacilities(sector, base, geocoded))
    ensures r.Err? ==> Some(r.error) == AnalysisError(MergedFacilities(sector, base, geocoded))
    ensures r.Ok? ==> r.value.columns == OutputColumns(sector != "primary")
    ensures r.Ok? ==> r.value.rows == Written(sector, MergedFacilities(sector, base, geocoded), now)
  {
    var rows := MergedFacilities(sector, base, geocoded);
    match AnalysisError(rows)
    case Some(e) => Err(e)
    case None => Ok(Table(OutputColumns(sector != "primary"), Written(sector, rows, now)))
  }

  /** A sector without base rows is not written: the period column cannot be
      assigned on an empty frame, and `process` re-raises. */
  lemma EmptySectorFails(sector: string, geocoded: Option<seq<Geocoding.GeoRow>>, now: Stamp)
    ensures RefinedLocations(sector, [], geocoded, now) == Err(EmptyPeriodError)
  {
    assert MergedFacilities(sector, [], geocoded) == [];
  }

  /** One refiner per sector. */
  class LocationRefiner {
    var sector: string

    /** The sector name is lower-cased. */
    constructor (sector: string)
      ensures this.sector == Text.Lower(sector)
    {
      this.sector := Text.Lower(sector);
    }

    /** `load_and_merge_data`: the existence check on the geocoded file is the
        `geocoded` argument, None when there is no such file. */
    method LoadAndMergeData(base: seq<BaseLocation>, geocoded: Option<seq<Geocoding.GeoRow>>)
      returns (frame: FacilityFrame)
      ensures fresh(frame)
      ensures frame.rows == MergedFacilities(sector, base, geocoded)
      ensures frame.hasCoordinates <==> sector != "primary"
    {
      if geocoded.Some? && sector != "primary" {
        frame := new FacilityFrame(AddressJoin(base, geocoded.value), true);
      } else {
        frame := new FacilityFrame(seq(|base|, i requires 0 <= i < |base| => Unmerged(base[i])), false);
        if sector != "primary" {
          frame.AddEmptyCoordinates();
        }
      }
    }

    /** `add_temporal_analysis`: either every row gets its analysis columns,
        or the step raises and leaves the rows as they were. */
    method AddTemporalAnalysis(df: FacilityFrame, now: Stamp) returns (error: Option<string>)
      modifies df
      ensures error == AnalysisError(old(df.rows))
      ensures error.None? ==> df.rows == Analysed(sector, old(df.rows), now)
      ensures error.Some? ==> df.rows == old(df.rows)
      ensures df.hasCoordinates == old(df.hasCoordinates)
    {
      error := AnalysisError(df.rows);
      if error.None? {
        df.rows := Analysed(sector, df.rows, now);
      }
    }

    /** `process`: the table written, or the exception it re-raises. */
    method Process(base: seq<BaseLocation>, geocoded: Option<seq<Geocoding.GeoRow>>, now: Stamp)
      returns (result: Result<Table, string>)
      ensures result == RefinedLocations(sector, base, geocoded, now)
    {
      var mergedData := LoadAndMergeData(base, geocoded);
      var error := AddTemporalAnalysis(mergedData, now);
      if error.Some? {
        return Err(error.value);
      }
      var finalData := mergedData.rows;
      result := Ok(Table(OutputColumns(mergedData.hasCoordinates), Selected(finalData, mergedData.hasCoordinates)));
    }
  }

  // ------------------------------------------------------ the written table

  /** A written row carries the identifying columns of the merged row at the
      same position, and its coordinates exactly when the sector is not
      primary. */
  lemma WrittenRowOrigin(sector: string, rows: seq<Facility>, now: Stamp, i: nat)
    requires AnalysisSucceeds(rows) && i < |rows|
    ensures var row := Written(sector, rows, now)[i];
      var b := rows[i].base;
      row.nrAdministratie == b.nrAdministratie && row.fullAddress == b.fullAddress
      && row.coordinates == if sector != "primary" then Some((rows[i].latitude, rows[i].longitude)) else None
  {
    assert Analysed(sector, rows, now)[i].base == rows[i].base;
  }

  /** A written row's status is Active or Closed, Active exactly while the
      facility operates, and its facility type is the label of its code. */
  lemma WrittenRowStatus(sector: string, rows: seq<Facility>, now: Stamp, i: nat)
    requires AnalysisSucceeds(rows) && i < |rows|
    ensures var row := Written(sector, rows, now)[i];
      row.locationStatus != Unknown
      && (row.locationStatus == Active <==> StillOperating(Coerce(rows[i].base.dtUitBedrijf), now))
      && row.facilityType == CategorizeFacility(sector, rows[i].base.codeSoort)
  {
    AnalysisStatus(sector, rows[i], now);
    assert Analysed(sector, rows, now)[i].analysis == Some(AnalysisOf(sector, rows[i], now));
  }

  /** A written row has its start date, its period begins with that date in
      ISO form, and the period ends in "Present" exactly when there is no end
      date, otherwise in the end date. */
  lemma WrittenRowPeriod(sector: string, rows: seq<Facility>, now: Stamp, i: nat)
    requires AnalysisSucceeds(rows) && i < |rows|
    ensures var row := Written(sector, rows, now)[i];
      row.dtInBedrijf.Some? && |row.operationPeriod| >= 14
      && row.operationPeriod[..10] == FormatISO(row.dtInBedrijf.value)
      && (row.operationPeriod[14..] == "Present" <==> row.dtUitBedrijf.None?)
      && (row.dtUitBedrijf.Some? ==> row.operationPeriod[14..] == FormatISO(row.dtUitBedrijf.value))
  {
    assert Analysed(sector, rows, now)[i].analysis == Some(AnalysisOf(sector, rows[i], now));
  }

  /** Every status written is Active or Closed. */
  lemma RefinedStatusesKnown(sector: string, base: seq<BaseLocation>, geocoded: Option<seq<Geocoding.GeoRow>>, now: Stamp, i: nat)
    requires RefinedLocations(sector, base, geocoded, now).Ok?
    requires i < |RefinedLocations(sector, base, geocoded, now).value.rows|
    ensures RefinedLocations(sector, base, geocoded, now).value.rows[i].locationStatus in {Active, Closed}
  {
    WrittenRowStatus(sector, MergedFacilities(sector, base, geocoded), now, i);
  }

  /** For primary the written rows are the base rows in order, without
      coordinate columns. */
  lemma PrimaryRows(base: seq<BaseLocation>, now: Stamp, i: nat)
    requires RefinedLocations("primary", base, None, now).Ok? && i < |base|
    ensures var out := RefinedLocations("primary", base, None, now).value;
      |out.rows| == |base| && out.columns == KeepColumns
      && out.rows[i].nrAdministratie == base[i].nrAdministratie && out.rows[i].coordinates.None?
  {
    WrittenRowOrigin("primary", MergedFacilities("primary", base, None), now, i);
  }

  /** A sector other than primary without a geocoded file writes the base rows
      in order with null coordinates. */
  lemma UngeocodedRows(sector: string, base: seq<BaseLocation>, now: Stamp, i: nat)
    requires sector != "primary" && RefinedLocations(sector, base, None, now).Ok? && i < |base|
    ensures var out := RefinedLocations(sector, base, None, now).value;
      |out.rows| == |base| && out.columns == KeepColumns + ["latitude", "longitude"]
      && out.rows[i].nrAdministratie == base[i].nrAdministratie
      && out.rows[i].coordinates == Some((None, None))
  {
    WrittenRowOrigin(sector, MergedFacilities(sector, base, None), now, i);
  }

  /** The written row at the position of a merged row of base row `i` with
      its `m`-th geocoded match. */
  lemma WrittenJoinRowAt(sector: string, base: seq<BaseLocation>, geocoded: seq<Geocoding.GeoRow>, now: Stamp, i: nat, m: nat)
    requires sector != "primary" && AnalysisSucceeds(AddressJoin(base, geocoded))
    requires i < |base| && m < |Matches(geocoded, GeocodedAddress, BaseAddress(base[i]))|
    ensures var out := Written(sector, AddressJoin(base, geocoded), now);
      var ms := Matches(geocoded, GeocodedAddress, BaseAddress(base[i]));
      var p := |LeftJoin(base[..i], geocoded, BaseAddress, GeocodedAddress)|;
      p + m < |out| && out[p + m].nrAdministratie == base[i].nrAdministratie
      && out[p + m].coordinates == Some((ms[m].latitude, ms[m].longitude))
  {
    var p := |LeftJoin(base[..i], geocoded, BaseAddress, GeocodedAddress)|;
    AddressJoinRowAt(base, geocoded, i, m);
    WrittenRowOrigin(sector, AddressJoin(base, geocoded), now, p + m);
  }

  /** The `m`-th geocoded row with the address of base row `i` gives the
      `m`-th written row of that base row its coordinates, in the geocoded
      file's order. */
  lemma GeocodedRowAt(sector: string, base: seq<BaseLocation>, geocoded: seq<Geocoding.GeoRow>, now: Stamp, i: nat, m: nat)
    requires sector != "primary" && RefinedLocations(sector, base, Some(geocoded), now).Ok?
    requires i < |base| && m < |Matches(geocoded, GeocodedAddress, BaseAddress(base[i]))|
    ensures var out := RefinedLocations(sector, base, Some(geocoded), now).value.rows;
      var ms := Matches(geocoded, GeocodedAddress, BaseAddress(base[i]));
      var p := |LeftJoin(base[..i], geocoded, BaseAddress, GeocodedAddress)|;
      p + m < |out| && out[p + m].nrAdministratie == base[i].nrAdministratie
      && out[p + m].coordinates == Some((ms[m].latitude, ms[m].longitude))
  {
    assert RefinedLocations(sector, base, Some(geocoded), now).value.rows
      == Written(sector, AddressJoin(base, geocoded), now);
    WrittenJoinRowAt(sector, base, geocoded, now, i, m);
  }

  /** A base row without a geocoded row of its address is written once, with
      null coordinates. */
  lemma GeocodedRowUnmatched(sector: string, base: seq<BaseLocation>, geocoded: seq<Geocoding.GeoRow>, now: Stamp, i: nat)
    requires sector != "primary" && RefinedLocations(sector, base, Some(geocoded), now).Ok?
    requires i < |base| && Matches(geocoded, GeocodedAddress, BaseAddress(base[i])) == []
    ensures var out := RefinedLocations(sector, base, Some(geocoded), now).value.rows;
      var p := |LeftJoin(base[..i], geocoded, BaseAddress, GeocodedAddress)|;
      p < |out| && out[p].nrAdministratie == base[i].nrAdministratie && out[p].coordinates == Some((None, None))
  {
    var p := |LeftJoin(base[..i], geocoded, BaseAddress, GeocodedAddress)|;
    var rows := AddressJoin(base, geocoded);
    assert RefinedLocations(sector, base, Some(geocoded), now).value.rows == Written(sector, rows, now);
    AddressJoinUnmatched(base, geocoded, i);
    WrittenRowOrigin(sector, rows, now, p);
  }
}
